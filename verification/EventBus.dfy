/** The telemetry bus: many publishers, one consumer, and a close that drains the queue. */
module EventBus {
  import opened Sums

  datatype Event = Event(sequence: nat, kind: string, agentID: string, phase: string, data: string)

  /** One call of Publish: between entering and returning it holds the read lock. */
  datatype Caller =
    | Idle(event: Event)
    | Inside(event: Event)        // not closed when it looked
    | Holding(event: Event)       // numbered, waiting to send
    | Sent(event: Event)          // sent, not yet counted
    | Accepted(event: Event)      // returned nil
    | Cancelled(event: Event)     // returned the context's error
    | Refused(event: Event)       // returned ErrBusClosed

  datatype Consumer = Receiving | Writing(event: Event, written: nat) | Stopped

  /** sent is the history of the queue; logs holds what each sink was given. */
  datatype State = State(
    callers: seq<Caller>, closed: bool, queue: seq<Event>, consumer: Consumer,
    sequence: nat, published: nat, delivered: nat,
    sent: seq<Event>, logs: seq<seq<Event>>)

  datatype Setup = Setup(capacity: nat, sinks: nat, calls: seq<Event>)

  datatype Step =
    | Enter(i: nat) | Number(i: nat) | Send(i: nat) | Count(i: nat) | Cancel(i: nat)
    | Close | Receive | Write | Deliver | Stop

  predicate HoldsLock(c: Caller) {
    c.Inside? || c.Holding? || c.Sent?
  }

  predicate Quiet(s: State) {
    forall i | 0 <= i < |s.callers| :: !HoldsLock(s.callers[i])
  }

  function Initial(setup: Setup): State {
    State(seq(|setup.calls|, i requires 0 <= i < |setup.calls| => Idle(setup.calls[i])),
          false, [], Receiving, 0, 0, 0, [], seq(setup.sinks, _ => []))
  }

  /** Sending is not conditional on the queue being open: that it always is has to be proved. */
  predicate Enabled(setup: Setup, s: State, step: Step) {
    match step
    case Enter(i) => i < |s.callers| && s.callers[i].Idle?
    case Number(i) => i < |s.callers| && s.callers[i].Inside?
    case Send(i) => i < |s.callers| && s.callers[i].Holding? && |s.queue| < setup.capacity
    case Count(i) => i < |s.callers| && s.callers[i].Sent?
    case Cancel(i) => i < |s.callers| && s.callers[i].Holding?
    case Close => !s.closed && Quiet(s)
    case Receive => s.consumer.Receiving? && s.queue != []
    case Write => s.consumer.Writing? && s.consumer.written < |s.logs|
    case Deliver => s.consumer.Writing? && s.consumer.written == |s.logs|
    case Stop => s.consumer.Receiving? && s.queue == [] && s.closed
  }

  function Apply(setup: Setup, s: State, step: Step): State
    requires Enabled(setup, s, step)
  {
    match step
    case Enter(i) =>
      var e := s.callers[i].event;
      s.(callers := s.callers[i := if s.closed then Refused(e) else Inside(e)])
    case Number(i) =>
      var e := s.callers[i].event.(sequence := s.sequence + 1);
      s.(callers := s.callers[i := Holding(e)], sequence := s.sequence + 1)
    case Send(i) =>
      var e := s.callers[i].event;
      s.(callers := s.callers[i := Sent(e)], queue := s.queue + [e], sent := s.sent + [e])
    case Count(i) =>
      s.(callers := s.callers[i := Accepted(s.callers[i].event)], published := s.published + 1)
    case Cancel(i) =>
      s.(callers := s.callers[i := Cancelled(s.callers[i].event)])
    case Close => s.(closed := true)
    case Receive => s.(queue := s.queue[1..], consumer := Writing(s.queue[0], 0))
    case Write =>
      var k := s.consumer.written;
      s.(logs := s.logs[k := s.logs[k] + [s.consumer.event]], consumer := s.consumer.(written := k + 1))
    case Deliver => s.(consumer := Receiving, delivered := s.delivered + 1)
    case Stop => s.(consumer := Stopped)
  }

  ghost predicate CanRun(setup: Setup, s: State, steps: seq<Step>)
    decreases |steps|
  {
    steps == [] || (Enabled(setup, s, steps[0]) && CanRun(setup, Apply(setup, s, steps[0]), steps[1..]))
  }

  ghost function RunFrom(setup: Setup, s: State, steps: seq<Step>): State
    requires CanRun(setup, s, steps)
    decreases |steps|
  {
    if steps == [] then s else RunFrom(setup, Apply(setup, s, steps[0]), steps[1..])
  }

  ghost predicate Leads(setup: Setup, s: State, s': State) {
    exists steps :: CanRun(setup, s, steps) && s' == RunFrom(setup, s, steps)
  }

  ghost predicate Reachable(setup: Setup, s: State) {
    Leads(setup, Initial(setup), s)
  }

  lemma {:induction false} LeadsNowhere(setup: Setup, s: State)
    ensures Leads(setup, s, s)
  {
    assert CanRun(setup, s, []) && RunFrom(setup, s, []) == s;
  }

  lemma {:induction false} RunOneMore(setup: Setup, s: State, steps: seq<Step>, step: Step)
    requires CanRun(setup, s, steps) && Enabled(setup, RunFrom(setup, s, steps), step)
    ensures CanRun(setup, s, steps + [step])
    ensures RunFrom(setup, s, steps + [step]) == Apply(setup, RunFrom(setup, s, steps), step)
    decreases |steps|
  {
    if steps == [] {
      assert [step][1..] == [] && [] + [step] == [step];
    } else {
      assert (steps + [step])[1..] == steps[1..] + [step];
      RunOneMore(setup, Apply(setup, s, steps[0]), steps[1..], step);
    }
  }

  lemma {:induction false} LeadsStep(setup: Setup, s: State, s': State, step: Step)
    requires Leads(setup, s, s') && Enabled(setup, s', step)
    ensures Leads(setup, s, Apply(setup, s', step))
  {
    var steps :| CanRun(setup, s, steps) && s' == RunFrom(setup, s, steps);
    RunOneMore(setup, s, steps, step);
  }

  // ---------------------------------------------------------------- what every step keeps

  function IsHolding(c: Caller): nat { if c.Holding? then 1 else 0 }
  function IsSent(c: Caller): nat { if c.Sent? then 1 else 0 }
  function IsAccepted(c: Caller): nat { if c.Accepted? then 1 else 0 }
  function IsCancelled(c: Caller): nat { if c.Cancelled? then 1 else 0 }

  /** Each sequence number allocated is waiting, sent or cancelled; each one sent is counted or about to be. */
  ghost predicate Counters(s: State) {
    && s.sequence == |s.sent| + Sum(s.callers, IsHolding) + Sum(s.callers, IsCancelled)
    && |s.sent| == s.published + Sum(s.callers, IsSent)
    && s.published == Sum(s.callers, IsAccepted)
  }

  /** How many events the consumer has taken off the queue. */
  function TakenCount(s: State): nat {
    s.delivered + if s.consumer.Writing? then 1 else 0
  }

  /** What sink k has been given: everything delivered, and the event being written if it got that far. */
  function GivenCount(s: State, k: nat): nat {
    s.delivered + if s.consumer.Writing? && k < s.consumer.written then 1 else 0
  }

  ghost predicate Pipeline(setup: Setup, s: State) {
    && TakenCount(s) <= |s.sent| && s.queue == s.sent[TakenCount(s)..]
    && |s.queue| <= setup.capacity && |s.logs| == setup.sinks
    && (s.consumer.Writing? ==> s.consumer.event == s.sent[s.delivered] && s.consumer.written <= |s.logs|)
    && (s.consumer.Stopped? ==> s.closed && s.queue == [])
    && forall k | 0 <= k < |s.logs| :: LogFollows(s, k)
  }

  ghost predicate LogFollows(s: State, k: nat)
    requires k < |s.logs|
  {
    GivenCount(s, k) <= |s.sent| && s.logs[k] == s.sent[..GivenCount(s, k)]
  }

  ghost predicate ClosedIsQuiet(s: State) {
    s.closed ==> Quiet(s)
  }

  /** A call's event is the one it was given, but for its number. */
  ghost predicate Payloads(setup: Setup, s: State) {
    && |s.callers| == |setup.calls|
    && forall i | 0 <= i < |s.callers| ::
      s.callers[i].event == setup.calls[i].(sequence := s.callers[i].event.sequence)
  }

  predicate Numbered(c: Caller) {
    c.Holding? || c.Sent? || c.Accepted? || c.Cancelled?
  }

  predicate WasSent(c: Caller) {
    c.Sent? || c.Accepted?
  }

  ghost predicate CallerNumber(s: State, i: nat)
    requires i < |s.callers|
  {
    Numbered(s.callers[i]) ==> 1 <= s.callers[i].event.sequence <= s.sequence
  }

  ghost predicate CallersDiffer(s: State, i: nat, j: nat)
    requires i < |s.callers| && j < |s.callers|
  {
    i != j && Numbered(s.callers[i]) && Numbered(s.callers[j]) ==>
      s.callers[i].event.sequence != s.callers[j].event.sequence
  }

  /** The event at position k of the history was sent by some caller. */
  ghost predicate HasSender(s: State, k: nat)
    requires k < |s.sent|
  {
    exists i :: 0 <= i < |s.callers| && WasSent(s.callers[i]) && s.callers[i].event == s.sent[k]
  }

  ghost predicate HasPlace(s: State, i: nat)
    requires i < |s.callers|
  {
    WasSent(s.callers[i]) ==> s.callers[i].event in s.sent
  }

  ghost predicate SentDiffer(s: State, j: nat, k: nat)
    requires j < |s.sent| && k < |s.sent|
  {
    j != k ==> s.sent[j].sequence != s.sent[k].sequence
  }

  ghost predicate Numbers(s: State) {
    && (forall i | 0 <= i < |s.callers| :: CallerNumber(s, i))
    && (forall i, j | 0 <= i < |s.callers| && 0 <= j < |s.callers| :: CallersDiffer(s, i, j))
    && (forall k | 0 <= k < |s.sent| :: HasSender(s, k))
    && (forall i | 0 <= i < |s.callers| :: HasPlace(s, i))
    && (forall j, k | 0 <= j < |s.sent| && 0 <= k < |s.sent| :: SentDiffer(s, j, k))
  }

  ghost predicate Inv(setup: Setup, s: State) {
    Counters(s) && Pipeline(setup, s) && ClosedIsQuiet(s) && Payloads(setup, s) && Numbers(s)
  }

  lemma {:induction false} CountersStep(setup: Setup, s: State, step: Step)
    requires Counters(s) && Enabled(setup, s, step)
    ensures Counters(Apply(setup, s, step))
  {
    if step.Enter? || step.Number? || step.Send? || step.Count? || step.Cancel? {
      CallerCounts(s.callers, step.i, Apply(setup, s, step).callers[step.i]);
    }
  }

  /** What each count gains when caller i becomes c. */
  lemma {:induction false} CallerCounts(callers: seq<Caller>, i: nat, c: Caller)
    requires i < |callers|
    ensures var after, b := callers[i := c], callers[i];
      && Sum(after, IsHolding) == Sum(callers, IsHolding) + IsHolding(c) - IsHolding(b)
      && Sum(after, IsSent) == Sum(callers, IsSent) + IsSent(c) - IsSent(b)
      && Sum(after, IsAccepted) == Sum(callers, IsAccepted) + IsAccepted(c) - IsAccepted(b)
      && Sum(after, IsCancelled) == Sum(callers, IsCancelled) + IsCancelled(c) - IsCancelled(b)
  {
    SumUpdate(callers, i, c, IsHolding);
    SumUpdate(callers, i, c, IsSent);
    SumUpdate(callers, i, c, IsAccepted);
    SumUpdate(callers, i, c, IsCancelled);
  }

  lemma {:induction false} PipelineSend(setup: Setup, s: State, i: nat)
    requires Pipeline(setup, s) && Enabled(setup, s, Send(i)) && !s.closed
    ensures Pipeline(setup, Apply(setup, s, Send(i)))
  {
    var s' := Apply(setup, s, Send(i));
    var e := s.callers[i].event;
    assert s'.sent[TakenCount(s)..] == s.sent[TakenCount(s)..] + [e];
    forall k | 0 <= k < |s'.logs| ensures LogFollows(s', k) {
      assert LogFollows(s, k);
      assert s'.sent[..GivenCount(s, k)] == s.sent[..GivenCount(s, k)];
    }
  }

  lemma {:induction false} PipelineReceive(setup: Setup, s: State)
    requires Pipeline(setup, s) && Enabled(setup, s, Receive)
    ensures Pipeline(setup, Apply(setup, s, Receive))
  {
    var s' := Apply(setup, s, Receive);
    assert s.queue[1..] == s.sent[TakenCount(s) + 1..];
    forall k | 0 <= k < |s'.logs| ensures LogFollows(s', k) {
      assert LogFollows(s, k);
    }
  }

  lemma {:induction false} PipelineWrite(setup: Setup, s: State)
    requires Pipeline(setup, s) && Enabled(setup, s, Write)
    ensures Pipeline(setup, Apply(setup, s, Write))
  {
    var s' := Apply(setup, s, Write);
    assert s.sent[..s.delivered + 1] == s.sent[..s.delivered] + [s.consumer.event];
    forall k | 0 <= k < |s'.logs| ensures LogFollows(s', k) {
      assert LogFollows(s, k);
    }
  }

  lemma {:induction false} PipelineDeliver(setup: Setup, s: State)
    requires Pipeline(setup, s) && Enabled(setup, s, Deliver)
    ensures Pipeline(setup, Apply(setup, s, Deliver))
  {
    var s' := Apply(setup, s, Deliver);
    forall k | 0 <= k < |s'.logs| ensures LogFollows(s', k) {
      assert LogFollows(s, k);
    }
  }

  /** The steps that touch neither the queue nor the consumer's round. */
  lemma {:induction false} PipelineElse(setup: Setup, s: State, step: Step)
    requires Pipeline(setup, s) && Enabled(setup, s, step)
    requires !step.Send? && !step.Receive? && !step.Write? && !step.Deliver?
    ensures Pipeline(setup, Apply(setup, s, step))
  {
    var s' := Apply(setup, s, step);
    forall k | 0 <= k < |s'.logs| ensures LogFollows(s', k) {
      assert LogFollows(s, k);
    }
  }

  lemma {:induction false} PipelineStep(setup: Setup, s: State, step: Step)
    requires Pipeline(setup, s) && Enabled(setup, s, step) && (step.Send? ==> !s.closed)
    ensures Pipeline(setup, Apply(setup, s, step))
  {
    match step
    case Send(i) => PipelineSend(setup, s, i);
    case Receive => PipelineReceive(setup, s);
    case Write => PipelineWrite(setup, s);
    case Deliver => PipelineDeliver(setup, s);
    case _ => PipelineElse(setup, s, step);
  }

  lemma {:induction false} QuietStep(setup: Setup, s: State, step: Step)
    requires ClosedIsQuiet(s) && Enabled(setup, s, step)
    ensures ClosedIsQuiet(Apply(setup, s, step))
    ensures step.Number? || step.Send? || step.Count? || step.Cancel? ==> !s.closed
  {
    if step.Number? || step.Send? || step.Count? || step.Cancel? {
      assert HoldsLock(s.callers[step.i]);
    }
  }

  lemma {:induction false} NumbersStep(setup: Setup, s: State, step: Step)
    requires Numbers(s) && Enabled(setup, s, step)
    ensures Numbers(Apply(setup, s, step))
  {
    var s' := Apply(setup, s, step);
    forall i | 0 <= i < |s'.callers| ensures CallerNumber(s', i) {
      assert CallerNumber(s, i);
    }
    forall i, j | 0 <= i < |s'.callers| && 0 <= j < |s'.callers| ensures CallersDiffer(s', i, j) {
      assert CallersDiffer(s, i, j) && CallerNumber(s, i) && CallerNumber(s, j);
    }
    forall k | 0 <= k < |s'.sent| ensures HasSender(s', k) {
      SenderStep(setup, s, step, k);
    }
    forall i | 0 <= i < |s'.callers| ensures HasPlace(s', i) {
      assert HasPlace(s, i);
    }
    forall j, k | 0 <= j < |s'.sent| && 0 <= k < |s'.sent| ensures SentDiffer(s', j, k) {
      SentDifferStep(setup, s, step, j, k);
    }
  }

  lemma {:induction false} SenderStep(setup: Setup, s: State, step: Step, k: nat)
    requires Numbers(s) && Enabled(setup, s, step) && k < |Apply(setup, s, step).sent|
    ensures HasSender(Apply(setup, s, step), k)
  {
    var s' := Apply(setup, s, step);
    if k < |s.sent| {
      assert HasSender(s, k);
      var i :| 0 <= i < |s.callers| && WasSent(s.callers[i]) && s.callers[i].event == s.sent[k];
      assert WasSent(s'.callers[i]) && s'.callers[i].event == s'.sent[k];
    } else {
      assert WasSent(s'.callers[step.i]);
    }
  }

  lemma {:induction false} SentDifferStep(setup: Setup, s: State, step: Step, j: nat, k: nat)
    requires Numbers(s) && Enabled(setup, s, step)
    requires j < |Apply(setup, s, step).sent| && k < |Apply(setup, s, step).sent|
    ensures SentDiffer(Apply(setup, s, step), j, k)
  {
    if j < |s.sent| && k < |s.sent| {
      assert SentDiffer(s, j, k);
    } else if step.Send? {
      var earlier := if j < |s.sent| then j else k;
      if earlier < |s.sent| {
        assert HasSender(s, earlier);
        var i :| 0 <= i < |s.callers| && WasSent(s.callers[i]) && s.callers[i].event == s.sent[earlier];
        assert CallersDiffer(s, i, step.i);
      }
    }
  }

  lemma {:induction false} StepInv(setup: Setup, s: State, step: Step)
    requires Inv(setup, s) && Enabled(setup, s, step)
    ensures Inv(setup, Apply(setup, s, step))
  {
    CountersStep(setup, s, step);
    QuietStep(setup, s, step);
    PipelineStep(setup, s, step);
    NumbersStep(setup, s, step);
  }

  lemma {:induction false} RunInv(setup: Setup, s: State, steps: seq<Step>)
    requires Inv(setup, s) && CanRun(setup, s, steps)
    ensures Inv(setup, RunFrom(setup, s, steps))
    decreases |steps|
  {
    if steps != [] {
      StepInv(setup, s, steps[0]);
      RunInv(setup, Apply(setup, s, steps[0]), steps[1..]);
    }
  }

  lemma {:induction false} InitialCounters(setup: Setup)
    ensures Counters(Initial(setup))
  {
    var s := Initial(setup);
    SumZero(s.callers, IsHolding);
    SumZero(s.callers, IsSent);
    SumZero(s.callers, IsAccepted);
    SumZero(s.callers, IsCancelled);
  }

  lemma {:induction false} InitialPipeline(setup: Setup)
    ensures Pipeline(setup, Initial(setup))
  {
    var s := Initial(setup);
    forall k | 0 <= k < |s.logs| ensures LogFollows(s, k) {
      assert s.logs[k] == [];
    }
  }

  lemma {:induction false} InitialNumbers(setup: Setup)
    ensures Numbers(Initial(setup))
  {
    var s := Initial(setup);
    forall i | 0 <= i < |s.callers|
      ensures CallerNumber(s, i) && HasPlace(s, i) && forall j | 0 <= j < |s.callers| :: CallersDiffer(s, i, j)
    {
      assert s.callers[i].Idle?;
    }
  }

  lemma {:induction false} InitialInv(setup: Setup)
    ensures Inv(setup, Initial(setup))
  {
    InitialCounters(setup);
    InitialPipeline(setup);
    InitialNumbers(setup);
  }

  lemma {:induction false} LeadsInv(setup: Setup, s: State, s': State)
    requires Inv(setup, s) && Leads(setup, s, s')
    ensures Inv(setup, s')
  {
    var steps :| CanRun(setup, s, steps) && s' == RunFrom(setup, s, steps);
    RunInv(setup, s, steps);
  }

  lemma {:induction false} ReachableInv(setup: Setup, s: State)
    requires Reachable(setup, s)
    ensures Inv(setup, s)
  {
    InitialInv(setup);
    LeadsInv(setup, Initial(setup), s);
  }

  // ---------------------------------------------------------------- conservation

  /** No publisher can send once the queue is closed. */
  lemma {:induction false} NoSendOnClosedQueue(setup: Setup, s: State, i: nat)
    requires Reachable(setup, s) && Enabled(setup, s, Send(i))
    ensures !s.closed
  {
    ReachableInv(setup, s);
    assert HoldsLock(s.callers[i]);
  }

  /** Events whose Publish returned nil carry different numbers, and each is in the queue's history once. */
  lemma {:induction false} AcceptedOnce(setup: Setup, s: State, i: nat, j: nat)
    requires Reachable(setup, s) && i < |s.callers| && j < |s.callers|
    requires s.callers[i].Accepted? && s.callers[j].Accepted?
    ensures i != j ==> s.callers[i].event.sequence != s.callers[j].event.sequence
    ensures s.callers[i].event in s.sent
    ensures |s.callers| == |setup.calls|
    ensures s.callers[i].event == setup.calls[i].(sequence := s.callers[i].event.sequence)
    ensures forall k, l | 0 <= k < |s.sent| && 0 <= l < |s.sent| && s.sent[k] == s.sent[l] :: k == l
  {
    ReachableInv(setup, s);
    assert CallersDiffer(s, i, j) && HasPlace(s, i);
    forall k, l | 0 <= k < |s.sent| && 0 <= l < |s.sent| && s.sent[k] == s.sent[l] ensures k == l {
      assert SentDiffer(s, k, l);
    }
  }

  /** Every sink has been given a prefix of the queue's history, in the queue's order. */
  lemma {:induction false} SinksFollowQueue(setup: Setup, s: State, k: nat)
    requires Reachable(setup, s) && k < setup.sinks
    ensures |s.logs| == setup.sinks && s.logs[k] <= s.sent
    ensures s.delivered <= |s.logs[k]| <= s.delivered + 1
  {
    ReachableInv(setup, s);
    assert LogFollows(s, k);
  }

  /** Once the consumer has stopped: delivered = published = allocated - cancelled, and every sink has it all. */
  lemma {:induction false} Conservation(setup: Setup, s: State)
    requires Reachable(setup, s) && s.consumer.Stopped?
    ensures s.delivered == s.published == |s.sent| == Sum(s.callers, IsAccepted)
    ensures s.sequence == s.published + Sum(s.callers, IsCancelled)
    ensures forall k | 0 <= k < |s.logs| :: s.logs[k] == s.sent
    ensures forall i | 0 <= i < |s.callers| :: s.callers[i].Accepted? ==> s.callers[i].event in s.sent
  {
    ReachableInv(setup, s);
    QuietSums(s);
    assert s.sent[..|s.sent|] == s.sent;
    forall k | 0 <= k < |s.logs| ensures s.logs[k] == s.sent {
      assert LogFollows(s, k);
    }
    forall i | 0 <= i < |s.callers| ensures s.callers[i].Accepted? ==> s.callers[i].event in s.sent {
      assert HasPlace(s, i);
    }
  }

  lemma {:induction false} QuietSums(s: State)
    requires Quiet(s)
    ensures Sum(s.callers, IsHolding) == 0 && Sum(s.callers, IsSent) == 0
  {
    forall c | c in s.callers ensures IsHolding(c) == 0 && IsSent(c) == 0 {
      var i :| 0 <= i < |s.callers| && s.callers[i] == c;
      assert !HoldsLock(s.callers[i]);
    }
    SumZero(s.callers, IsHolding);
    SumZero(s.callers, IsSent);
  }

  /** At every moment what is delivered, queued or being written is what is published or sent and not yet
      counted. So delivered exceeds published exactly while fewer events wait in the bus than senders wait to
      count. */
  lemma {:induction false} DeliveredBalance(setup: Setup, s: State)
    requires Reachable(setup, s)
    ensures s.delivered + |s.queue| + (if s.consumer.Writing? then 1 else 0)
         == s.published + Sum(s.callers, IsSent)
    ensures s.delivered > s.published <==>
      |s.queue| + (if s.consumer.Writing? then 1 else 0) < Sum(s.callers, IsSent)
  {
    ReachableInv(setup, s);
    assert |s.queue| == |s.sent| - TakenCount(s);
  }

  const ONE_CALL: Setup := Setup(1, 0, [Event(0, "k", "", "", "")])

  /** Delivered can overtake published, because a sender counts only after it has sent. */
  lemma {:induction false} DeliveredMayLead() returns (s: State)
    ensures Reachable(ONE_CALL, s) && s.delivered == 1 && s.published == 0
  {
    var steps := [Enter(0), Number(0), Send(0), Receive, Deliver];
    assert steps[1..] == [Number(0), Send(0), Receive, Deliver];
    assert steps[1..][1..] == [Send(0), Receive, Deliver];
    assert steps[1..][1..][1..] == [Receive, Deliver];
    assert steps[1..][1..][1..][1..] == [Deliver];
    assert steps[1..][1..][1..][1..][1..] == [];
    s := RunFrom(ONE_CALL, Initial(ONE_CALL), steps);
  }

  // ---------------------------------------------------------------- order

  ghost predicate Increasing(events: seq<Event>) {
    forall j, k | 0 <= j < k < |events| :: events[j].sequence < events[k].sequence
  }

  /** At most one publisher is inside Publish, as when a caller publishes under its own mutex. */
  ghost predicate Alone(s: State) {
    forall i, j | 0 <= i < |s.callers| && 0 <= j < |s.callers| && i != j ::
      !(HoldsLock(s.callers[i]) && HoldsLock(s.callers[j]))
  }

  ghost predicate SerialRun(setup: Setup, s: State, steps: seq<Step>)
    requires CanRun(setup, s, steps)
    decreases |steps|
  {
    Alone(s) && (steps == [] || SerialRun(setup, Apply(setup, s, steps[0]), steps[1..]))
  }

  ghost predicate Ordered(s: State) {
    && Increasing(s.sent)
    && (forall k | 0 <= k < |s.sent| :: s.sent[k].sequence <= s.sequence)
    && (forall i, k | 0 <= i < |s.callers| && 0 <= k < |s.sent| && s.callers[i].Holding? ::
      s.sent[k].sequence < s.callers[i].event.sequence)
    && (forall i | 0 <= i < |s.callers| && s.callers[i].Holding? :: s.callers[i].event.sequence <= s.sequence)
  }

  lemma {:induction false} OnlyHolder(s: State, i: nat, j: nat)
    requires Alone(s) && i < |s.callers| && j < |s.callers| && s.callers[j].Holding?
    ensures s.callers[i].Holding? ==> i == j
  {
    assert HoldsLock(s.callers[j]);
  }

  lemma {:induction false} OrderedStep(setup: Setup, s: State, step: Step)
    requires Ordered(s) && Alone(s) && Enabled(setup, s, step)
    ensures Ordered(Apply(setup, s, step))
  {
    var s' := Apply(setup, s, step);
    if step.Send? {
      var sender := step.i;
      forall i | 0 <= i < |s'.callers| ensures !s'.callers[i].Holding? {
        OnlyHolder(s, i, sender);
      }
    }
  }

  lemma {:induction false} OrderedRun(setup: Setup, s: State, steps: seq<Step>)
    requires Ordered(s) && CanRun(setup, s, steps) && SerialRun(setup, s, steps)
    ensures Ordered(RunFrom(setup, s, steps))
    decreases |steps|
  {
    if steps != [] {
      OrderedStep(setup, s, steps[0]);
      OrderedRun(setup, Apply(setup, s, steps[0]), steps[1..]);
    }
  }

  /** One publisher at a time: the queue, and so every sink, sees the events in the order of their numbers. */
  lemma {:induction false} SerialOrder(setup: Setup, steps: seq<Step>)
    requires CanRun(setup, Initial(setup), steps) && SerialRun(setup, Initial(setup), steps)
    ensures var s := RunFrom(setup, Initial(setup), steps);
      Increasing(s.sent) && forall k | 0 <= k < |s.logs| :: Increasing(s.logs[k])
  {
    var s := RunFrom(setup, Initial(setup), steps);
    OrderedRun(setup, Initial(setup), steps);
    LogsIncrease(setup, s);
  }

  const TWO_CALLS: Setup := Setup(2, 1, [Event(0, "first", "", "", ""), Event(0, "second", "", "", "")])

  /** Concurrent publishers can send in the opposite order to their numbers. */
  lemma {:induction false} ConcurrentOrder() returns (s: State)
    ensures Reachable(TWO_CALLS, s) && |s.sent| == 2 && s.sent[0].sequence == 2 && s.sent[1].sequence == 1
  {
    var s0 := Initial(TWO_CALLS);
    var s1 := Apply(TWO_CALLS, s0, Enter(0));
    var s2 := Apply(TWO_CALLS, s1, Enter(1));
    var s3 := Apply(TWO_CALLS, s2, Number(0));
    var s4 := Apply(TWO_CALLS, s3, Number(1));
    var s5 := Apply(TWO_CALLS, s4, Send(1));
    s := Apply(TWO_CALLS, s5, Send(0));
    ReachableInitial(TWO_CALLS);
    ReachableStep(TWO_CALLS, s0, Enter(0));
    ReachableStep(TWO_CALLS, s1, Enter(1));
    ReachableStep(TWO_CALLS, s2, Number(0));
    ReachableStep(TWO_CALLS, s3, Number(1));
    ReachableStep(TWO_CALLS, s4, Send(1));
    ReachableStep(TWO_CALLS, s5, Send(0));
  }

  lemma {:induction false} ReachableInitial(setup: Setup)
    ensures Reachable(setup, Initial(setup))
  {
    LeadsNowhere(setup, Initial(setup));
  }

  lemma {:induction false} ReachableStep(setup: Setup, s: State, step: Step)
    requires Reachable(setup, s) && Enabled(setup, s, step)
    ensures Reachable(setup, Apply(setup, s, step))
  {
    LeadsStep(setup, Initial(setup), s, step);
  }

  // ---------------------------------------------------------------- exactly when order can be lost

  predicate Unsent(c: Caller) {
    c.Idle? || c.Inside? || c.Holding?
  }

  /** Caller i waits with a number below one that is already in the queue's history. */
  ghost predicate Overtaken(s: State, i: nat, k: nat)
    requires i < |s.callers| && k < |s.sent|
  {
    s.callers[i].Holding? && s.sent[k].sequence > s.callers[i].event.sequence
  }

  ghost predicate BothUnsent(s: State, i: nat, j: nat)
    requires i < |s.callers| && j < |s.callers|
  {
    i != j && Unsent(s.callers[i]) && Unsent(s.callers[j])
  }

  /** Read off the state: order is lost already, or the open bus has two calls still to send, or one call that
      has been overtaken. */
  ghost predicate OrderAtRisk(setup: Setup, s: State) {
    || !Increasing(s.sent)
    || (&& setup.capacity > 0 && !s.closed
        && (|| (exists i, j | 0 <= i < |s.callers| && 0 <= j < |s.callers| :: BothUnsent(s, i, j))
            || (exists i, k | 0 <= i < |s.callers| && 0 <= k < |s.sent| :: Overtaken(s, i, k))))
  }

  /** Some continuation of s has events in the queue against the order of their numbers. */
  ghost predicate OrderCanBreak(setup: Setup, s: State) {
    exists s' :: Leads(setup, s, s') && !Increasing(s'.sent)
  }

  lemma {:induction false} NotOvertaken(s: State, i: nat, k: nat)
    requires Numbers(s) && i < |s.callers| && k < |s.sent| && s.callers[i].Holding? && !Overtaken(s, i, k)
    ensures s.sent[k].sequence < s.callers[i].event.sequence
  {
    assert HasSender(s, k);
    var j :| 0 <= j < |s.callers| && WasSent(s.callers[j]) && s.callers[j].event == s.sent[k];
    assert CallersDiffer(s, i, j);
  }

  lemma {:induction false} SentBelowSequence(s: State, k: nat)
    requires Numbers(s) && k < |s.sent|
    ensures s.sent[k].sequence <= s.sequence
  {
    assert HasSender(s, k);
    var j :| 0 <= j < |s.callers| && WasSent(s.callers[j]) && s.callers[j].event == s.sent[k];
    assert CallerNumber(s, j);
  }

  lemma {:induction false} SafeSend(setup: Setup, s: State, i: nat)
    requires Inv(setup, s) && !OrderAtRisk(setup, s) && Enabled(setup, s, Send(i))
    ensures !OrderAtRisk(setup, Apply(setup, s, Send(i)))
  {
    var s' := Apply(setup, s, Send(i));
    assert HoldsLock(s.callers[i]);
    forall k | 0 <= k < |s.sent| ensures s.sent[k].sequence < s.callers[i].event.sequence {
      assert !Overtaken(s, i, k);
      NotOvertaken(s, i, k);
    }
    forall j | 0 <= j < |s'.callers| ensures !Unsent(s'.callers[j]) {
      assert !BothUnsent(s, i, j);
    }
  }

  lemma {:induction false} SafeElse(setup: Setup, s: State, step: Step)
    requires Inv(setup, s) && !OrderAtRisk(setup, s) && Enabled(setup, s, step) && !step.Send?
    ensures !OrderAtRisk(setup, Apply(setup, s, step))
  {
    var s' := Apply(setup, s, step);
    if setup.capacity > 0 && !s'.closed {
      forall i, j | 0 <= i < |s'.callers| && 0 <= j < |s'.callers| ensures !BothUnsent(s', i, j) {
        assert !BothUnsent(s, i, j);
      }
      forall i, k | 0 <= i < |s'.callers| && 0 <= k < |s'.sent| ensures !Overtaken(s', i, k) {
        assert !Overtaken(s, i, k);
        SentBelowSequence(s, k);
      }
    }
  }

  lemma {:induction false} SafeRun(setup: Setup, s: State, steps: seq<Step>)
    requires Inv(setup, s) && !OrderAtRisk(setup, s) && CanRun(setup, s, steps)
    ensures Increasing(RunFrom(setup, s, steps).sent)
    decreases |steps|
  {
    if steps != [] {
      if steps[0].Send? {
        SafeSend(setup, s, steps[0].i);
      } else {
        SafeElse(setup, s, steps[0]);
      }
      StepInv(setup, s, steps[0]);
      SafeRun(setup, Apply(setup, s, steps[0]), steps[1..]);
    }
  }

  /** s' continues the run from origin, and the publishers are as they were in s. */
  ghost predicate Extends(setup: Setup, origin: State, s: State, s': State) {
    && Leads(setup, origin, s') && Inv(setup, s')
    && s'.sent == s.sent && s'.closed == s.closed && s'.sequence == s.sequence && s'.callers == s.callers
  }

  function RoundLeft(s: State): int {
    match s.consumer case Writing(_, k) => |s.logs| - k + 1 case _ => 0
  }

  /** The consumer can always empty an open bus. */
  lemma {:induction false} MakeRoom(setup: Setup, origin: State, s: State) returns (s': State)
    requires Leads(setup, origin, s) && Inv(setup, s) && !s.closed
    ensures Extends(setup, origin, s, s') && s'.queue == [] && s'.consumer.Receiving?
    decreases |s.queue|, RoundLeft(s)
  {
    if s.queue == [] && s.consumer.Receiving? {
      return s;
    }
    var step := match s.consumer
      case Writing(_, k) => if k < |s.logs| then Write else Deliver
      case _ => Receive;
    LeadsStep(setup, origin, s, step);
    StepInv(setup, s, step);
    s' := MakeRoom(setup, origin, Apply(setup, s, step));
  }

  /** A call that has not sent yet can be brought to where it waits to send. */
  lemma {:induction false} BringToSend(setup: Setup, origin: State, s: State, i: nat) returns (s': State)
    requires Leads(setup, origin, s) && Inv(setup, s) && !s.closed && i < |s.callers| && Unsent(s.callers[i])
    ensures Leads(setup, origin, s') && Inv(setup, s') && !s'.closed && s'.sent == s.sent
    ensures |s'.callers| == |s.callers| && s'.callers[i].Holding?
    ensures forall j | 0 <= j < |s.callers| && j != i :: s'.callers[j] == s.callers[j]
    decreases if s.callers[i].Idle? then 2 else if s.callers[i].Inside? then 1 else 0
  {
    if s.callers[i].Holding? {
      return s;
    }
    var step := if s.callers[i].Idle? then Step.Enter(i) else Number(i);
    LeadsStep(setup, origin, s, step);
    StepInv(setup, s, step);
    s' := BringToSend(setup, origin, Apply(setup, s, step), i);
  }

  lemma {:induction false} SendWithRoom(setup: Setup, origin: State, s: State, i: nat) returns (s': State)
    requires Leads(setup, origin, s) && Inv(setup, s) && !s.closed && setup.capacity > 0
    requires i < |s.callers| && s.callers[i].Holding?
    ensures Leads(setup, origin, s') && Inv(setup, s') && !s'.closed
    ensures s'.callers == s.callers[i := Caller.Sent(s.callers[i].event)]
    ensures s'.sent == s.sent + [s.callers[i].event]
  {
    var m := MakeRoom(setup, origin, s);
    LeadsStep(setup, origin, m, Send(i));
    StepInv(setup, m, Send(i));
    s' := Apply(setup, m, Send(i));
  }

  lemma {:induction false} OvertakenBreaks(setup: Setup, origin: State, s: State, i: nat, k: nat) returns (s': State)
    requires Leads(setup, origin, s) && Inv(setup, s) && !s.closed && setup.capacity > 0
    requires i < |s.callers| && k < |s.sent| && Overtaken(s, i, k)
    ensures Leads(setup, origin, s') && Inv(setup, s') && !s'.closed && !Increasing(s'.sent)
  {
    s' := SendWithRoom(setup, origin, s, i);
    assert s'.sent[k].sequence > s'.sent[|s.sent|].sequence;
  }

  lemma {:induction false} TwoUnsentBreak(setup: Setup, origin: State, s: State, i: nat, j: nat) returns (s': State)
    requires Leads(setup, origin, s) && Inv(setup, s) && !s.closed && setup.capacity > 0
    requires i < |s.callers| && j < |s.callers| && BothUnsent(s, i, j)
    ensures Leads(setup, origin, s') && Inv(setup, s') && !s'.closed && !Increasing(s'.sent)
  {
    var m := BringToSend(setup, origin, s, i);
    m := BringToSend(setup, origin, m, j);
    assert CallersDiffer(m, i, j);
    var earlier, later := i, j;
    if m.callers[j].event.sequence < m.callers[i].event.sequence {
      earlier, later := j, i;
    }
    var n := SendWithRoom(setup, origin, m, later);
    assert n.sent[|m.sent|] == m.callers[later].event;
    s' := OvertakenBreaks(setup, origin, n, earlier, |m.sent|);
  }

  lemma {:induction false} RiskBreaks(setup: Setup, origin: State, s: State) returns (s': State)
    requires Leads(setup, origin, s) && Inv(setup, s) && Increasing(s.sent) && OrderAtRisk(setup, s)
    ensures Leads(setup, origin, s') && Inv(setup, s') && !s'.closed && !Increasing(s'.sent)
  {
    if i, j :| 0 <= i < |s.callers| && 0 <= j < |s.callers| && BothUnsent(s, i, j) {
      s' := TwoUnsentBreak(setup, origin, s, i, j);
    } else {
      var i, k :| 0 <= i < |s.callers| && 0 <= k < |s.sent| && Overtaken(s, i, k);
      s' := OvertakenBreaks(setup, origin, s, i, k);
    }
  }

  /** From any reachable state some continuation breaks the order exactly when the state shows it. */
  lemma {:induction false} OrderBreaksIff(setup: Setup, s: State)
    requires Reachable(setup, s)
    ensures OrderCanBreak(setup, s) <==> OrderAtRisk(setup, s)
  {
    ReachableInv(setup, s);
    LeadsNowhere(setup, s);
    if OrderAtRisk(setup, s) && Increasing(s.sent) {
      var _ := RiskBreaks(setup, s, s);
    }
    if OrderCanBreak(setup, s) && !OrderAtRisk(setup, s) {
      var s' :| Leads(setup, s, s') && !Increasing(s'.sent);
      var steps :| CanRun(setup, s, steps) && s' == RunFrom(setup, s, steps);
      SafeRun(setup, s, steps);
    }
  }

  /** Seen before the run: the queue keeps the order of the numbers in every run exactly when there is at most
      one call, and so does what every sink is given, unless there is no sink. */
  lemma {:induction false} OrderThreshold(setup: Setup)
    ensures (forall s | Reachable(setup, s) :: Increasing(s.sent)) <==>
      |setup.calls| <= 1 || setup.capacity == 0
    ensures (forall s, k | Reachable(setup, s) && 0 <= k < |s.logs| :: Increasing(s.logs[k])) <==>
      |setup.calls| <= 1 || setup.capacity == 0 || setup.sinks == 0
  {
    var s0 := Initial(setup);
    ReachableInitial(setup);
    InitialInv(setup);
    if |setup.calls| <= 1 || setup.capacity == 0 {
      InitialSafe(setup);
      forall s | Reachable(setup, s)
        ensures Increasing(s.sent) && forall k | 0 <= k < |s.logs| :: Increasing(s.logs[k])
      {
        var steps :| CanRun(setup, s0, steps) && s == RunFrom(setup, s0, steps);
        SafeRun(setup, s0, steps);
        LogsIncrease(setup, s);
      }
    } else {
      assert BothUnsent(s0, 0, 1);
      var m := TwoUnsentBreak(setup, s0, s0, 0, 1);
      assert Reachable(setup, m) && !Increasing(m.sent);
      var s := MakeRoom(setup, s0, m);
      assert Reachable(setup, s) && |s.logs| == setup.sinks;
      if setup.sinks > 0 {
        EmptyShowsAll(setup, s, 0);
        assert !Increasing(s.logs[0]);
      }
    }
    if setup.sinks == 0 {
      forall s | Reachable(setup, s) ensures |s.logs| == 0 {
        ReachableInv(setup, s);
      }
    }
  }

  lemma {:induction false} InitialSafe(setup: Setup)
    requires |setup.calls| <= 1 || setup.capacity == 0
    ensures !OrderAtRisk(setup, Initial(setup))
  {}

  lemma {:induction false} LogsIncrease(setup: Setup, s: State)
    requires Reachable(setup, s) && Increasing(s.sent)
    ensures forall k | 0 <= k < |s.logs| :: Increasing(s.logs[k])
  {
    ReachableInv(setup, s);
    forall k | 0 <= k < |s.logs| ensures Increasing(s.logs[k]) {
      SinksFollowQueue(setup, s, k);
    }
  }

  lemma {:induction false} EmptyShowsAll(setup: Setup, s: State, k: nat)
    requires Inv(setup, s) && s.queue == [] && s.consumer.Receiving? && k < |s.logs|
    ensures s.logs[k] == s.sent
  {
    assert LogFollows(s, k);
    assert s.sent[..|s.sent|] == s.sent;
  }

  // ---------------------------------------------------------------- draining

  predicate ByConsumer(step: Step) {
    step.Receive? || step.Write? || step.Deliver? || step.Stop?
  }

  /** How many steps the consumer still has to take once nothing more is sent. */
  function DrainSteps(s: State): int {
    |s.queue| * (|s.logs| + 2)
    + (match s.consumer case Receiving => 1 case Writing(_, k) => |s.logs| - k + 2 case Stopped => 0)
  }

  lemma {:induction false} QueueShrinks(n: nat, k: nat)
    requires n > 0
    ensures n * (k + 2) == (n - 1) * (k + 2) + k + 2
  {}

  /** After Close the consumer is never stuck before it stops, needs exactly DrainSteps steps, and nothing
      a publisher does changes that number. */
  lemma {:induction false} Drains(setup: Setup, s: State, step: Step)
    requires Reachable(setup, s) && s.closed && Enabled(setup, s, step)
    ensures var s' := Apply(setup, s, step);
      s'.closed && DrainSteps(s') == DrainSteps(s) - (if ByConsumer(step) then 1 else 0)
  {
    ReachableInv(setup, s);
    QuietStep(setup, s, step);
    if step.Receive? {
      QueueShrinks(|s.queue|, |s.logs|);
    }
  }

  lemma {:induction false} DrainNeverStuck(setup: Setup, s: State)
    requires Reachable(setup, s) && s.closed && !s.consumer.Stopped?
    ensures DrainSteps(s) > 0
    ensures exists step :: ByConsumer(step) && Enabled(setup, s, step)
  {
    ReachableInv(setup, s);
    ProductNonNegative(|s.queue|, |s.logs| + 2);
    var step := match s.consumer
      case Receiving => if s.queue == [] then Stop else Receive
      case Writing(_, k) => if k < |s.logs| then Write else Deliver
      case Stopped => Stop;
    assert ByConsumer(step) && Enabled(setup, s, step);
  }

  lemma {:induction false} ProductNonNegative(a: nat, b: nat)
    ensures a * b >= 0
  {}

  // ---------------------------------------------------------------- everybody can finish

  predicate Returned(c: Caller) {
    c.Accepted? || c.Cancelled? || c.Refused?
  }

  /** How a call ends from here if its context does not. */
  predicate EndsWell(before: Caller, closed: bool, after: Caller) {
    if Returned(before) then after == before
    else if closed then after.Refused?
    else after.Accepted?
  }

  lemma {:induction false} CountSent(setup: Setup, origin: State, s: State, i: nat) returns (s': State)
    requires Leads(setup, origin, s) && Inv(setup, s) && i < |s.callers| && s.callers[i].Sent?
    ensures Leads(setup, origin, s') && Inv(setup, s') && s'.closed == s.closed
    ensures s'.callers == s.callers[i := Accepted(s.callers[i].event)]
  {
    LeadsStep(setup, origin, s, Count(i));
    StepInv(setup, s, Count(i));
    s' := Apply(setup, s, Count(i));
  }

  lemma {:induction false} RefuseIdle(setup: Setup, origin: State, s: State, i: nat) returns (s': State)
    requires Leads(setup, origin, s) && Inv(setup, s) && s.closed && i < |s.callers| && !Returned(s.callers[i])
    ensures Leads(setup, origin, s') && Inv(setup, s') && s'.closed
    ensures s'.callers == s.callers[i := Refused(s.callers[i].event)]
  {
    assert !HoldsLock(s.callers[i]);
    LeadsStep(setup, origin, s, Step.Enter(i));
    StepInv(setup, s, Step.Enter(i));
    s' := Apply(setup, s, Step.Enter(i));
  }

  /** Any one call can return without being cancelled, whatever the others do. */
  lemma {:induction false} FinishCaller(setup: Setup, origin: State, s: State, i: nat) returns (s': State)
    requires Leads(setup, origin, s) && Inv(setup, s) && setup.capacity > 0 && i < |s.callers|
    ensures Leads(setup, origin, s') && Inv(setup, s') && s'.closed == s.closed && |s'.callers| == |s.callers|
    ensures EndsWell(s.callers[i], s.closed, s'.callers[i])
    ensures forall j | 0 <= j < |s.callers| && j != i :: s'.callers[j] == s.callers[j]
  {
    if Returned(s.callers[i]) {
      s' := s;
    } else if s.closed {
      s' := RefuseIdle(setup, origin, s, i);
    } else if s.callers[i].Sent? {
      s' := CountSent(setup, origin, s, i);
    } else {
      var m := BringToSend(setup, origin, s, i);
      m := SendWithRoom(setup, origin, m, i);
      s' := CountSent(setup, origin, m, i);
    }
  }

  lemma {:induction false} FinishCallers(setup: Setup, origin: State, s: State, n: nat) returns (s': State)
    requires Leads(setup, origin, s) && Inv(setup, s) && setup.capacity > 0 && n <= |s.callers|
    ensures Leads(setup, origin, s') && Inv(setup, s') && s'.closed == s.closed && |s'.callers| == |s.callers|
    ensures forall i | 0 <= i < n :: EndsWell(s.callers[i], s.closed, s'.callers[i])
    ensures forall i | n <= i < |s.callers| :: s'.callers[i] == s.callers[i]
  {
    if n == 0 {
      s' := s;
    } else {
      var m := FinishCallers(setup, origin, s, n - 1);
      s' := FinishCaller(setup, origin, m, n - 1);
    }
  }

  lemma {:induction false} RunOut(setup: Setup, origin: State, s: State) returns (s': State)
    requires Leads(setup, origin, s) && Inv(setup, s) && s.closed
    ensures Leads(setup, origin, s') && s'.closed && s'.callers == s.callers && s'.consumer.Stopped?
    decreases |s.queue|, RoundLeft(s), if s.consumer.Stopped? then 0 else 1
  {
    if s.consumer.Stopped? {
      return s;
    }
    var step := match s.consumer
      case Writing(_, k) => if k < |s.logs| then Write else Deliver
      case _ => if s.queue == [] then Stop else Receive;
    LeadsStep(setup, origin, s, step);
    StepInv(setup, s, step);
    s' := RunOut(setup, origin, Apply(setup, s, step));
  }

  /** Every call has returned, none of them cancelled after s, the bus is closed and its consumer has stopped. */
  ghost predicate FinishedFrom(s: State, s': State) {
    && |s'.callers| == |s.callers| && s'.closed && s'.consumer.Stopped?
    && forall i | 0 <= i < |s.callers| :: EndsWell(s.callers[i], s.closed, s'.callers[i])
  }

  /** From every reachable state everybody can finish: open calls are accepted, the bus closes, its queue drains. */
  lemma {:induction false} EverybodyCanFinish(setup: Setup, s: State)
    requires Reachable(setup, s) && setup.capacity > 0
    ensures exists s' :: Leads(setup, s, s') && FinishedFrom(s, s')
  {
    ReachableInv(setup, s);
    LeadsNowhere(setup, s);
    var m := FinishCallers(setup, s, s, |s.callers|);
    if !m.closed {
      assert Quiet(m);
      LeadsStep(setup, s, m, Close);
      StepInv(setup, m, Close);
      m := Apply(setup, m, Close);
    }
    var s' := RunOut(setup, s, m);
    assert FinishedFrom(s, s');
  }

  // ---------------------------------------------------------------- the bus itself

  datatype NewBusResult = Opened(bus: Bus) | NilSink(index: nat)

  /** NewBus: present says which of the sinks are not nil. */
  method NewBus(bufferSize: int, present: seq<bool>, calls: seq<Event>) returns (r: NewBusResult)
    ensures r.Opened? <==> forall k | 0 <= k < |present| :: present[k]
    ensures r.NilSink? ==> r.index < |present| && !present[r.index] && forall k | 0 <= k < r.index :: present[k]
    ensures r.Opened? ==> fresh(r.bus) && r.bus.Valid() && r.bus.Abs() == Initial(r.bus.setup)
    ensures r.Opened? ==> r.bus.setup == Setup(if bufferSize <= 0 then 1024 else bufferSize, |present|, calls)
  {
    for i := 0 to |present|
      invariant forall k | 0 <= k < i :: present[k]
    {
      if !present[i] {
        return NilSink(i);
      }
    }
    var bus := new Bus(bufferSize, |present|, calls);
    return Opened(bus);
  }

  class Bus {
    const setup: Setup
    var callers: seq<Caller>
    var closed: bool
    var queue: seq<Event>
    var consumer: Consumer
    var sequence: nat
    var published: nat
    var delivered: nat
    var logs: seq<seq<Event>>
    ghost var sent: seq<Event>

    ghost function Abs(): State
      reads this
    {
      State(callers, closed, queue, consumer, sequence, published, delivered, sent, logs)
    }

    ghost predicate Valid()
      reads this
    {
      Reachable(setup, Abs())
    }

    /** The bus NewBus starts once its sinks are checked. */
    constructor (bufferSize: int, sinks: nat, calls: seq<Event>)
      ensures Valid() && Abs() == Initial(setup)
      ensures setup == Setup(if bufferSize <= 0 then 1024 else bufferSize, sinks, calls)
    {
      setup := Setup(if bufferSize <= 0 then 1024 else bufferSize, sinks, calls);
      callers := seq(|calls|, i requires 0 <= i < |calls| => Idle(calls[i]));
      closed, queue, consumer := false, [], Receiving;
      sequence, published, delivered := 0, 0, 0;
      logs, sent := seq(sinks, _ => []), [];
      new;
      assert Abs() == Initial(setup);
      ReachableInitial(setup);
    }

    /** Publish up to its select: the lock, the closed flag, and the event's number. */
    method Enter(i: nat) returns (refused: bool)
      requires Valid() && i < |callers| && callers[i].Idle?
      modifies this
      ensures Valid() && refused == old(closed)
      ensures refused ==> Abs() == Apply(setup, old(Abs()), Step.Enter(i))
      ensures !refused ==> Abs() == Apply(setup, Apply(setup, old(Abs()), Step.Enter(i)), Number(i))
      ensures !refused ==> sequence == old(sequence) + 1 && callers[i].event.sequence == sequence
    {
      ReachableStep(setup, Abs(), Step.Enter(i));
      var e := callers[i].event;
      if closed {
        callers := callers[i := Refused(e)];
        return true;
      }
      callers := callers[i := Inside(e)];
      ReachableStep(setup, Abs(), Number(i));
      sequence := sequence + 1;
      callers := callers[i := Holding(e.(sequence := sequence))];
      return false;
    }

    /** The send of Publish, when the queue has room; the queue is open. */
    method Send(i: nat)
      requires Valid() && i < |callers| && callers[i].Holding? && |queue| < setup.capacity
      modifies this
      ensures Valid() && Abs() == Apply(setup, old(Abs()), Step.Send(i)) && !closed
    {
      NoSendOnClosedQueue(setup, Abs(), i);
      assert !closed;
      ReachableStep(setup, Abs(), Step.Send(i));
      var e := callers[i].event;
      queue, sent := queue + [e], sent + [e];
      callers := callers[i := Caller.Sent(e)];
    }

    /** The return of Publish after a send, and after its context ended. */
    method Leave(i: nat)
      requires Valid() && i < |callers| && (callers[i].Sent? || callers[i].Holding?)
      modifies this
      ensures Valid() && Abs() == Apply(setup, old(Abs()), if old(callers[i].Sent?) then Count(i) else Cancel(i))
    {
      ReachableStep(setup, Abs(), if callers[i].Sent? then Count(i) else Cancel(i));
      if callers[i].Sent? {
        published := published + 1;
        callers := callers[i := Accepted(callers[i].event)];
      } else {
        callers := callers[i := Cancelled(callers[i].event)];
      }
    }

    /** The section of Close that runs once and holds the write lock; a later Close skips it. */
    method CloseQueue()
      requires Valid() && (closed || Quiet(Abs()))
      modifies this
      ensures Valid() && closed
      ensures Abs() == if old(closed) then old(Abs()) else Apply(setup, old(Abs()), Close)
    {
      if !closed {
        ReachableStep(setup, Abs(), Close);
        closed := true;
      }
    }

    /** The write to the next sink. */
    method WriteNext()
      requires Valid() && consumer.Writing? && consumer.written < |logs|
      modifies this
      ensures Valid() && Abs() == Apply(setup, old(Abs()), Write)
    {
      ReachableStep(setup, Abs(), Write);
      var k := consumer.written;
      logs := logs[k := logs[k] + [consumer.event]];
      consumer := consumer.(written := k + 1);
    }

    /** The receive of run. */
    method TakeNext()
      requires Valid() && consumer.Receiving? && queue != []
      modifies this
      ensures Valid() && Abs() == Apply(setup, old(Abs()), Receive)
    {
      ReachableStep(setup, Abs(), Receive);
      queue, consumer := queue[1..], Writing(queue[0], 0);
    }

    /** The count at the end of a round. */
    method CountDelivery()
      requires Valid() && consumer.Writing? && consumer.written == |logs|
      modifies this
      ensures Valid() && Abs() == Apply(setup, old(Abs()), Deliver)
    {
      ReachableStep(setup, Abs(), Deliver);
      consumer, delivered := Receiving, delivered + 1;
    }

    /** One round of run: an event is taken and given to every sink in turn. */
    method DeliverOne()
      requires Valid() && consumer.Receiving? && queue != []
      modifies this
      ensures Valid() && consumer.Receiving? && queue == old(queue[1..]) && delivered == old(delivered) + 1
      ensures |logs| == |old(logs)|
      ensures forall k | 0 <= k < |logs| :: logs[k] == old(logs[k]) + [old(queue[0])]
      ensures unchanged(`callers, `closed, `sequence, `published, `sent)
    {
      TakeNext();
      ghost var s := Abs();
      while consumer.written < |logs|
        invariant Valid() && consumer.Writing? && consumer.written <= |logs| == |s.logs|
        invariant Abs() == s.(logs := logs, consumer := s.consumer.(written := consumer.written))
        invariant forall j | 0 <= j < |logs| ::
          logs[j] == if j < consumer.written then s.logs[j] + [s.consumer.event] else s.logs[j]
        decreases |logs| - consumer.written
      {
        WriteNext();
      }
      CountDelivery();
    }

    /** The rest of run once the queue is closed: it drains the queue and stops. */
    method Drain()
      requires Valid() && closed && consumer.Receiving?
      modifies this
      ensures Valid() && consumer.Stopped? && queue == []
      ensures delivered == published == |sent|
      ensures forall k | 0 <= k < |logs| :: logs[k] == sent
      ensures unchanged(`callers, `closed, `sequence, `published, `sent)
    {
      while queue != []
        invariant Valid() && closed && consumer.Receiving?
        invariant unchanged(`callers, `closed, `sequence, `published, `sent)
        decreases |queue|
      {
        DeliverOne();
      }
      ReachableStep(setup, Abs(), Stop);
      consumer := Stopped;
      Conservation(setup, Abs());
    }
  }
}
