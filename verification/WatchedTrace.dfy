/** The scheduler's log on its way through the bus and a sink to a watcher. The scheduler publishes under its own
    lock, one event after the other. */
module WatchedTrace {
  import opened EventBus
  import opened EventPages
  import M = SchedulerModel
  import I = SchedulerInvariants
  import O = SchedulerOutcomes

  // ---------------------------------------------------------------- one call after the other

  /** A call starts only after the one before it has returned. */
  ghost predicate InTurn(s: State) {
    forall i, j | 0 <= i < j < |s.callers| && !s.callers[j].Idle? :: Returned(s.callers[i])
  }

  ghost predicate TurnRun(setup: Setup, s: State, steps: seq<Step>)
    requires CanRun(setup, s, steps)
    decreases |steps|
  {
    InTurn(s) && (steps == [] || TurnRun(setup, Apply(setup, s, steps[0]), steps[1..]))
  }

  /** What the callers have sent, in the order of the calls. */
  function SentOf(callers: seq<Caller>): seq<Event> {
    if callers == [] then []
    else
      var last := callers[|callers| - 1];
      SentOf(callers[..|callers| - 1]) + if WasSent(last) then [last.event] else []
  }

  ghost predicate RefusedIsClosed(s: State, i: nat)
    requires i < |s.callers|
  {
    s.callers[i].Refused? ==> s.closed && forall j | i < j < |s.callers| :: !WasSent(s.callers[j])
  }

  ghost predicate TurnInv(s: State) {
    && InTurn(s)
    && (forall i | 0 <= i < |s.callers| :: RefusedIsClosed(s, i))
    && s.sent == SentOf(s.callers)
  }

  predicate SameSent(c: Caller, d: Caller) {
    (WasSent(c) <==> WasSent(d)) && (WasSent(c) ==> c.event == d.event)
  }

  lemma {:induction false} SentOfSame(before: seq<Caller>, after: seq<Caller>)
    requires |before| == |after| && forall i | 0 <= i < |before| :: SameSent(before[i], after[i])
    ensures SentOf(before) == SentOf(after)
  {
    if before != [] {
      var n := |before| - 1;
      assert SameSent(before[n], after[n]);
      SentOfSame(before[..n], after[..n]);
    }
  }

  lemma {:induction false} SentOfSend(callers: seq<Caller>, i: nat, c: Caller)
    requires i < |callers| && !WasSent(callers[i]) && WasSent(c)
    requires forall j | i < j < |callers| :: !WasSent(callers[j])
    ensures SentOf(callers[i := c]) == SentOf(callers) + [c.event]
  {
    var n := |callers| - 1;
    if i == n {
      assert callers[i := c][..n] == callers[..n];
    } else {
      assert callers[i := c][..n] == callers[..n][i := c];
      SentOfSend(callers[..n], i, c);
    }
  }

  lemma {:induction false} TurnSend(setup: Setup, s: State, i: nat)
    requires TurnInv(s) && Enabled(setup, s, Send(i)) && !s.closed
    ensures var s' := Apply(setup, s, Send(i));
      s'.sent == SentOf(s'.callers) && forall j | 0 <= j < |s'.callers| :: RefusedIsClosed(s', j)
  {
    var s' := Apply(setup, s, Send(i));
    forall j | i < j < |s.callers| ensures !WasSent(s.callers[j]) {
      assert !s.callers[j].Idle? ==> Returned(s.callers[i]);
    }
    SentOfSend(s.callers, i, s'.callers[i]);
    forall j | 0 <= j < |s'.callers| ensures RefusedIsClosed(s', j) {
      assert RefusedIsClosed(s, j);
    }
  }

  lemma {:induction false} TurnElse(setup: Setup, s: State, step: Step)
    requires TurnInv(s) && Enabled(setup, s, step) && !step.Send?
    ensures var s' := Apply(setup, s, step);
      s'.sent == SentOf(s'.callers) && forall j | 0 <= j < |s'.callers| :: RefusedIsClosed(s', j)
  {
    var s' := Apply(setup, s, step);
    forall i | 0 <= i < |s.callers| ensures SameSent(s.callers[i], s'.callers[i]) {}
    SentOfSame(s.callers, s'.callers);
    forall j | 0 <= j < |s'.callers| ensures RefusedIsClosed(s', j) {
      TurnRefused(setup, s, step, j);
    }
  }

  lemma {:induction false} TurnRefused(setup: Setup, s: State, step: Step, j: nat)
    requires TurnInv(s) && Enabled(setup, s, step) && !step.Send? && j < |s.callers|
    ensures RefusedIsClosed(Apply(setup, s, step), j)
  {
    var s' := Apply(setup, s, step);
    assert RefusedIsClosed(s, j);
    if s'.callers[j].Refused? {
      forall k | j < k < |s'.callers| ensures !WasSent(s'.callers[k]) {
        assert SameSent(s.callers[k], s'.callers[k]);
        assert !s.callers[k].Idle? ==> Returned(s.callers[j]);
      }
    }
  }

  lemma {:induction false} TurnRunInv(setup: Setup, s: State, steps: seq<Step>)
    requires Inv(setup, s) && TurnInv(s) && CanRun(setup, s, steps) && TurnRun(setup, s, steps)
    ensures TurnInv(RunFrom(setup, s, steps))
    decreases |steps|
  {
    if steps != [] {
      var s' := Apply(setup, s, steps[0]);
      QuietStep(setup, s, steps[0]);
      if steps[0].Send? {
        TurnSend(setup, s, steps[0].i);
      } else {
        TurnElse(setup, s, steps[0]);
      }
      StepInv(setup, s, steps[0]);
      assert InTurn(s');
      TurnRunInv(setup, s', steps[1..]);
    }
  }

  lemma {:induction false} TurnIsAlone(s: State)
    requires InTurn(s)
    ensures Alone(s)
  {}

  lemma {:induction false} TurnIsSerial(setup: Setup, s: State, steps: seq<Step>)
    requires CanRun(setup, s, steps) && TurnRun(setup, s, steps)
    ensures SerialRun(setup, s, steps)
    decreases |steps|
  {
    TurnIsAlone(s);
    if steps != [] {
      TurnIsSerial(setup, Apply(setup, s, steps[0]), steps[1..]);
    }
  }

  lemma {:induction false} NothingSentYet(callers: seq<Caller>)
    requires forall i | 0 <= i < |callers| :: callers[i].Idle?
    ensures SentOf(callers) == []
  {
    if callers != [] {
      NothingSentYet(callers[..|callers| - 1]);
    }
  }

  ghost predicate NoneCancelled(s: State) {
    forall i | 0 <= i < |s.callers| :: !s.callers[i].Cancelled?
  }

  /** The first m calls have sent, the others have not. */
  ghost predicate SentUpTo(callers: seq<Caller>, m: nat) {
    m <= |callers| && forall i | 0 <= i < |callers| :: WasSent(callers[i]) <==> i < m
  }

  lemma {:induction false} FirstUnsent(callers: seq<Caller>) returns (m: nat)
    ensures m <= |callers| && (forall i | 0 <= i < m :: WasSent(callers[i])) && (m < |callers| ==> !WasSent(callers[m]))
  {
    m := 0;
    while m < |callers| && WasSent(callers[m])
      invariant m <= |callers| && forall i | 0 <= i < m :: WasSent(callers[i])
    {
      m := m + 1;
    }
  }

  lemma {:induction false} SentInTurn(s: State) returns (m: nat)
    requires TurnInv(s) && NoneCancelled(s)
    ensures SentUpTo(s.callers, m)
  {
    m := FirstUnsent(s.callers);
    forall i | m < i < |s.callers| ensures !WasSent(s.callers[i]) {
      assert RefusedIsClosed(s, m) && !s.callers[m].Cancelled?;
      assert !s.callers[i].Idle? ==> Returned(s.callers[m]);
    }
  }

  lemma {:induction false} SentAre(callers: seq<Caller>, m: nat)
    requires SentUpTo(callers, m)
    ensures |SentOf(callers)| == m && forall i | 0 <= i < m :: SentOf(callers)[i] == callers[i].event
  {
    if callers != [] {
      var n := |callers| - 1;
      SentAre(callers[..n], if m == |callers| then m - 1 else m);
    }
  }

  /** Published one after the other and none of them cancelled, the events reach the queue as a prefix of the calls. */
  lemma {:induction false} SentIsPrefix(setup: Setup, steps: seq<Step>)
    requires CanRun(setup, Initial(setup), steps) && TurnRun(setup, Initial(setup), steps)
    requires NoneCancelled(RunFrom(setup, Initial(setup), steps))
    ensures var s := RunFrom(setup, Initial(setup), steps);
      && |s.sent| <= |setup.calls|
      && forall i | 0 <= i < |s.sent| :: s.sent[i] == setup.calls[i].(sequence := s.sent[i].sequence)
  {
    var s0, s := Initial(setup), RunFrom(setup, Initial(setup), steps);
    InitialInv(setup);
    NothingSentYet(s0.callers);
    TurnRunInv(setup, s0, steps);
    RunInv(setup, s0, steps);
    var m := SentInTurn(s);
    SentAre(s.callers, m);
  }

  // ---------------------------------------------------------------- traces

  /** The kinds as they are spelled on the bus. */
  function KindText(kind: M.EventKind): string {
    match kind
    case AgentSubmitted => "runtime.agent.submitted"
    case AgentBlocked => "runtime.agent.blocked"
    case PressureSampled => "runtime.pressure.sampled"
    case AgentDispatched => "runtime.agent.dispatched"
    case OutputCommitted => "runtime.output.committed"
    case OutputVerified => "runtime.output.verified"
    case VerificationFailed => "runtime.output.verification_failed"
    case AgentFinished => "runtime.agent.finished"
  }

  function Texts(kinds: seq<M.EventKind>): seq<string> {
    seq(|kinds|, i requires 0 <= i < |kinds| => KindText(kinds[i]))
  }

  /** The calls publish the entries of the scheduler's log in order. */
  ghost predicate Publishes(calls: seq<Event>, log: seq<M.Event>) {
    && |calls| == |log|
    && forall i | 0 <= i < |calls| :: calls[i].agentID == log[i].id && calls[i].kind == KindText(log[i].kind)
  }

  /** The kinds of one agent's events, in order. */
  function Kinds(events: seq<Event>, id: string): seq<string> {
    if events == [] then []
    else
      var last := events[|events| - 1];
      Kinds(events[..|events| - 1], id) + if last.agentID == id then [last.kind] else []
  }

  lemma {:induction false} KindsMatch(events: seq<Event>, log: seq<M.Event>, id: string)
    requires Publishes(events, log)
    ensures Kinds(events, id) == Texts(I.KindsOf(log, id))
  {
    if events != [] {
      var n := |events| - 1;
      KindsMatch(events[..n], log[..n], id);
      var front := I.KindsOf(log[..n], id);
      assert Texts(front + [log[n].kind]) == Texts(front) + [KindText(log[n].kind)];
    }
  }

  lemma {:induction false} TextsPrefix(kinds: seq<M.EventKind>, whole: seq<M.EventKind>)
    requires kinds <= whole
    ensures Texts(kinds) <= Texts(whole)
  {}

  /** A complete trace as it reads on the bus. */
  predicate ReadsComplete(kinds: seq<string>) {
    || kinds == ["runtime.agent.submitted", "runtime.agent.blocked"]
    || exists committed, verdict
         | committed in {[], ["runtime.output.committed"]}
           && verdict in {[], ["runtime.output.verified"], ["runtime.output.verification_failed"]} ::
         kinds == ["runtime.agent.submitted", "runtime.pressure.sampled", "runtime.agent.dispatched"]
                  + committed + verdict + ["runtime.agent.finished"]
  }

  lemma {:induction false} TextsConcat(a: seq<M.EventKind>, b: seq<M.EventKind>)
    ensures Texts(a + b) == Texts(a) + Texts(b)
  {}

  lemma {:induction false} CompleteReads(whole: seq<M.EventKind>)
    requires O.CompleteTrace(whole)
    ensures ReadsComplete(Texts(whole))
  {
    if whole == [M.AgentSubmitted, M.AgentBlocked] {
      assert Texts(whole) == ["runtime.agent.submitted", "runtime.agent.blocked"];
    } else {
      var committed: seq<M.EventKind>, verdict: seq<M.EventKind> :|
        && (committed == [] || committed == [M.OutputCommitted])
        && (verdict == [] || verdict == [M.OutputVerified] || verdict == [M.VerificationFailed])
        && whole == [M.AgentSubmitted, M.PressureSampled, M.AgentDispatched] + committed + verdict + [M.AgentFinished];
      var start := [M.AgentSubmitted, M.PressureSampled, M.AgentDispatched];
      TextsConcat(start + committed + verdict, [M.AgentFinished]);
      TextsConcat(start + committed, verdict);
      TextsConcat(start, committed);
      assert Texts(start) == ["runtime.agent.submitted", "runtime.pressure.sampled", "runtime.agent.dispatched"];
      assert Texts([M.AgentFinished]) == ["runtime.agent.finished"];
      assert Texts(committed) == if committed == [] then [] else ["runtime.output.committed"];
      assert Texts(verdict) == if verdict == [] then [] else [KindText(verdict[0])];
    }
  }

  /** What begins a trace is the beginning of such a text. */
  lemma {:induction false} BeginsReads(kinds: seq<string>) returns (whole: seq<string>)
    requires BeginsTrace(kinds)
    ensures ReadsComplete(whole) && kinds <= whole
  {
    var trace :| O.CompleteTrace(trace) && kinds <= Texts(trace);
    CompleteReads(trace);
    whole := Texts(trace);
  }

  /** The kinds are the beginning of what some complete trace of an agent looks like. */
  ghost predicate BeginsTrace(kinds: seq<string>) {
    exists whole :: O.CompleteTrace(whole) && kinds <= Texts(whole)
  }

  lemma {:induction false} PrefixBeginsTrace(setup: M.Setup, s: M.State, events: seq<Event>, id: string)
    requires M.ValidSetup(setup) && M.Reachable(setup, s)
    requires |events| <= |s.log| && Publishes(events, s.log[..|events|])
    ensures BeginsTrace(Kinds(events, id))
  {
    var p := |events|;
    O.TraceOrder(setup, s, p, id);
    var whole :| O.CompleteTrace(whole) && I.KindsOf(s.log[..p], id) <= whole;
    KindsMatch(events, s.log[..p], id);
    TextsPrefix(I.KindsOf(s.log[..p], id), whole);
  }

  lemma {:induction false} SinkPublishes(setup: Setup, steps: seq<Step>, log: seq<M.Event>, k: nat, p: nat)
    requires Publishes(setup.calls, log) && k < setup.sinks
    requires CanRun(setup, Initial(setup), steps) && TurnRun(setup, Initial(setup), steps)
    requires NoneCancelled(RunFrom(setup, Initial(setup), steps))
    requires k < |RunFrom(setup, Initial(setup), steps).logs| && p <= |RunFrom(setup, Initial(setup), steps).logs[k]|
    ensures p <= |log| && Publishes(RunFrom(setup, Initial(setup), steps).logs[k][..p], log[..p])
  {
    var s := RunFrom(setup, Initial(setup), steps);
    SentIsPrefix(setup, steps);
    SinksFollowQueue(setup, s, k);
    forall i | 0 <= i < p
      ensures s.logs[k][i].agentID == log[i].id && s.logs[k][i].kind == KindText(log[i].kind)
    {
      assert s.logs[k][i] == s.sent[i];
    }
  }

  /** What a sink holds of one agent begins a complete trace, whatever the moment, as long as no publication timed
      out. */
  lemma {:induction false} SinkKeepsTrace(scheduling: M.Setup, scheduler: M.State, id: string,
                                          setup: Setup, steps: seq<Step>, k: nat)
    requires M.ValidSetup(scheduling) && M.Reachable(scheduling, scheduler)
    requires Publishes(setup.calls, scheduler.log) && k < setup.sinks
    requires CanRun(setup, Initial(setup), steps) && TurnRun(setup, Initial(setup), steps)
    requires NoneCancelled(RunFrom(setup, Initial(setup), steps))
    ensures var s := RunFrom(setup, Initial(setup), steps);
      |s.logs| == setup.sinks && BeginsTrace(Kinds(s.logs[k], id))
  {
    var s := RunFrom(setup, Initial(setup), steps);
    SinksFollowQueue(setup, s, k);
    var l := s.logs[k];
    SinkPublishes(setup, steps, scheduler.log, k, |l|);
    assert l[..|l|] == l;
    PrefixBeginsTrace(scheduling, scheduler, l, id);
  }

  // ---------------------------------------------------------------- a publication that times out

  lemma {:induction false} TurnCons(setup: Setup, s: State, step: Step, s': State, rest: seq<Step>)
    requires InTurn(s) && Enabled(setup, s, step) && s' == Apply(setup, s, step)
    requires CanRun(setup, s', rest) && TurnRun(setup, s', rest)
    ensures CanRun(setup, s, [step] + rest) && TurnRun(setup, s, [step] + rest)
    ensures RunFrom(setup, s, [step] + rest) == RunFrom(setup, s', rest)
  {
    assert ([step] + rest)[1..] == rest;
  }

  const TWO_EVENTS: Setup := Setup(1, 1, [Event(0, "runtime.agent.submitted", "a", "QUEUED", ""),
                                          Event(0, "runtime.agent.blocked", "a", "BLOCKED", "")])

  function Midway(callers: seq<Caller>, queue: seq<Event>, consumer: Consumer, sequence: nat, sent: seq<Event>,
                  log: seq<Event>): State {
    State(callers, false, queue, consumer, sequence, 0, 0, sent, [log])
  }

  const LATE: Event := Event(2, "runtime.agent.blocked", "a", "BLOCKED", "")
  const FIRST: Caller := Cancelled(Event(1, "runtime.agent.submitted", "a", "QUEUED", ""))

  /** The second event on its way, after the first has timed out. */
  lemma {:induction false} SecondArrives() returns (steps: seq<Step>)
    ensures var s := Midway([FIRST, Holding(LATE)], [], Receiving, 2, [], []);
      && CanRun(TWO_EVENTS, s, steps) && TurnRun(TWO_EVENTS, s, steps)
      && RunFrom(TWO_EVENTS, s, steps).logs == [[LATE]]
  {
    var s0 := Midway([FIRST, Holding(LATE)], [], Receiving, 2, [], []);
    var s1 := Midway([FIRST, Caller.Sent(LATE)], [LATE], Receiving, 2, [LATE], []);
    var s2 := Midway([FIRST, Caller.Sent(LATE)], [], Writing(LATE, 0), 2, [LATE], []);
    var s3 := Midway([FIRST, Caller.Sent(LATE)], [], Writing(LATE, 1), 2, [LATE], [LATE]);
    var none: seq<Event> := [];
    assert none + [LATE] == [LATE] && [none][0 := [LATE]] == [[LATE]];
    TurnCons(TWO_EVENTS, s2, Write, s3, []);
    TurnCons(TWO_EVENTS, s1, Receive, s2, [Write] + []);
    TurnCons(TWO_EVENTS, s0, Send(1), s1, [Receive] + ([Write] + []));
    steps := [Send(1)] + ([Receive] + ([Write] + []));
  }

  /** The first event times out and the second does not: the sink then holds a trace that begins in the middle. */
  lemma {:induction false} TimeoutBreaksTrace() returns (steps: seq<Step>)
    ensures CanRun(TWO_EVENTS, Initial(TWO_EVENTS), steps) && TurnRun(TWO_EVENTS, Initial(TWO_EVENTS), steps)
    ensures var s := RunFrom(TWO_EVENTS, Initial(TWO_EVENTS), steps);
      |s.logs| == 1 && !BeginsTrace(Kinds(s.logs[0], "a"))
  {
    var a, b := TWO_EVENTS.calls[0], TWO_EVENTS.calls[1];
    var s0 := Midway([Idle(a), Idle(b)], [], Receiving, 0, [], []);
    var s1 := Midway([Inside(a), Idle(b)], [], Receiving, 0, [], []);
    var s2 := Midway([Holding(FIRST.event), Idle(b)], [], Receiving, 1, [], []);
    var s3 := Midway([FIRST, Idle(b)], [], Receiving, 1, [], []);
    var s4 := Midway([FIRST, Inside(b)], [], Receiving, 1, [], []);
    var s5 := Midway([FIRST, Holding(LATE)], [], Receiving, 2, [], []);
    assert s0 == Initial(TWO_EVENTS);
    steps := SecondArrives();
    TurnCons(TWO_EVENTS, s4, Step.Number(1), s5, steps);
    steps := [Step.Number(1)] + steps;
    TurnCons(TWO_EVENTS, s3, Step.Enter(1), s4, steps);
    steps := [Step.Enter(1)] + steps;
    TurnCons(TWO_EVENTS, s2, Cancel(0), s3, steps);
    steps := [Cancel(0)] + steps;
    TurnCons(TWO_EVENTS, s1, Step.Number(0), s2, steps);
    steps := [Step.Number(0)] + steps;
    TurnCons(TWO_EVENTS, s0, Step.Enter(0), s1, steps);
    steps := [Step.Enter(0)] + steps;
    OneKind(LATE);
  }

  lemma {:induction false} OneKind(e: Event)
    requires e.agentID == "a" && e.kind == "runtime.agent.blocked"
    ensures !BeginsTrace(Kinds([e], "a"))
  {
    assert Kinds([e], "a") == [e.kind] by { assert [e][..0] == []; }
    forall whole | O.CompleteTrace(whole) ensures !([e.kind] <= Texts(whole)) {
      assert whole[0] == M.AgentSubmitted && Texts(whole)[0] == "runtime.agent.submitted" && [e.kind][0] == e.kind;
      assert "runtime.agent.blocked"[14] != "runtime.agent.submitted"[14];
    }
  }

  // ---------------------------------------------------------------- the watcher

  function KindsIn(events: seq<Event>): seq<string> {
    seq(|events|, i requires 0 <= i < |events| => events[i].kind)
  }

  function OfAgent(id: string): Filters {
    Filters("", id, "")
  }

  lemma {:induction false} SelectedKinds(events: seq<Event>, id: string)
    requires id != ""
    ensures KindsIn(Select(events, Matches(OfAgent(id)))) == Kinds(events, id)
  {
    if events == [] {
    } else {
      var n := |events| - 1;
      SelectedKinds(events[..n], id);
      SelectAppend(events[..n], events[n], Matches(OfAgent(id)));
      assert events == events[..n] + [events[n]];
    }
  }

  lemma {:induction false} SelectNone(events: seq<Event>, keep: Event -> bool)
    requires forall e | e in events :: !keep(e)
    ensures Select(events, keep) == []
  {
    if events != [] {
      assert events[0] in events;
      SelectNone(events[1..], keep);
    }
  }

  lemma {:induction false} SelectSame(events: seq<Event>, keep: Event -> bool, other: Event -> bool)
    requires forall e | e in events :: keep(e) == other(e)
    ensures Select(events, keep) == Select(events, other)
  {
    if events != [] {
      assert events[0] in events;
      SelectSame(events[1..], keep, other);
    }
  }

  lemma {:induction false} SelectConcat(a: seq<Event>, b: seq<Event>, keep: Event -> bool)
    ensures Select(a + b, keep) == Select(a, keep) + Select(b, keep)
  {
    if a == [] {
      assert a + b == b;
    } else {
      assert (a + b)[1..] == a[1..] + b;
      SelectConcat(a[1..], b, keep);
    }
  }

  /** In a history in order the events up to a cursor are its first ones. */
  lemma {:induction false} CutAtCursor(history: seq<Event>, cursor: nat) returns (p: nat)
    requires InOrder(history)
    ensures p <= |history|
    ensures forall e | e in history[..p] :: 0 < e.sequence <= cursor
    ensures forall e | e in history[p..] :: e.sequence > cursor
  {
    p := 0;
    while p < |history| && history[p].sequence <= cursor
      invariant p <= |history| && forall i | 0 <= i < p :: history[i].sequence <= cursor
    {
      p := p + 1;
    }
    forall e | e in history[p..] ensures e.sequence > cursor {
      var i :| 0 <= i < |history[p..]| && history[p..][i] == e;
      assert history[p].sequence <= history[p + i].sequence;
    }
  }

  lemma {:induction false} SelectUpTo(history: seq<Event>, cursor: nat, f: Filters) returns (p: nat)
    requires InOrder(history)
    ensures p <= |history|
    ensures Select(history, (e: Event) => Wanted(f, 0, cursor, e)) == Select(history[..p], Matches(f))
  {
    p := CutAtCursor(history, cursor);
    var wanted := (e: Event) => Wanted(f, 0, cursor, e);
    SelectConcat(history[..p], history[p..], wanted);
    SelectSame(history[..p], wanted, Matches(f));
    SelectNone(history[p..], wanted);
    assert history == history[..p] + history[p..];
  }

  /** And what a watcher of one agent has printed from an unbounded sink, over any polls, begins a complete trace. */
  lemma {:induction false} WatcherSeesTrace(scheduling: M.Setup, scheduler: M.State, id: string,
                                            setup: Setup, steps: seq<Step>, k: nat,
                                            polls: seq<Poll>, moments: seq<seq<Event>>, limit: int)
    requires M.ValidSetup(scheduling) && M.Reachable(scheduling, scheduler) && id != ""
    requires Publishes(setup.calls, scheduler.log) && k < setup.sinks
    requires CanRun(setup, Initial(setup), steps) && TurnRun(setup, Initial(setup), steps)
    requires NoneCancelled(RunFrom(setup, Initial(setup), steps))
    requires k < |RunFrom(setup, Initial(setup), steps).logs|
    requires |moments| == |polls|
    requires forall i | 0 <= i < |polls| :: Sees(polls[i], moments[i], RunFrom(setup, Initial(setup), steps).logs[k])
    ensures BeginsTrace(KindsIn(Watched(polls, 0, limit, OfAgent(id)).printed))
  {
    var history := RunFrom(setup, Initial(setup), steps).logs[k];
    var w := Watched(polls, 0, limit, OfAgent(id));
    TurnIsSerial(setup, Initial(setup), steps);
    BusFeedsCursor(setup, steps, k);
    forall i | 0 <= i < |moments| ensures moments[i] <= history { assert Sees(polls[i], moments[i], history); }
    forall i | 0 <= i < |polls| && polls[i].Served? ensures polls[i].retained == Last(moments[i], 0) {
      assert Sees(polls[i], moments[i], history);
    }
    PagesConcatenate(polls, moments, history, 0, 0, limit, OfAgent(id));
    var p := SelectUpTo(history, w.cursor, OfAgent(id));
    SelectedKinds(history[..p], id);
    SinkPublishes(setup, steps, scheduler.log, k, p);
    PrefixBeginsTrace(scheduling, scheduler, history[..p], id);
  }
}
