/** What every step of the scheduler keeps. */
module SchedulerInvariants {
  import opened Text
  import opened Sums
  import opened SchedulerModel

  // ---------------------------------------------------------------- submission history

  ghost function Ids(entries: seq<QueuedJob>): set<string> {
    set e | e in entries :: e.job.id
  }

  /** Entry i carries sequence i + 1, a new ID, and only dependencies submitted before it. */
  ghost predicate WellPlaced(accepted: seq<QueuedJob>, i: nat)
    requires i < |accepted|
  {
    && accepted[i].sequence == i + 1
    && accepted[i].job.id !in Ids(accepted[..i])
    && forall d | d in accepted[i].job.dependsOn :: d in Ids(accepted[..i])
  }

  ghost predicate History(s: State) {
    && s.sequence == |s.accepted|
    && s.records.Keys == Ids(s.accepted)
    && forall i | 0 <= i < |s.accepted| :: WellPlaced(s.accepted, i)
  }

  /** e is an accepted submission. */
  predicate Placed(s: State, e: QueuedJob) {
    1 <= e.sequence <= |s.accepted| && s.accepted[e.sequence - 1] == e
  }

  /** Where an ID was submitted. */
  ghost function IndexOf(entries: seq<QueuedJob>, id: string): (i: nat)
    requires id in Ids(entries)
    ensures i < |entries| && entries[i].job.id == id
  {
    var e :| e in entries && e.job.id == id;
    var i :| 0 <= i < |entries| && entries[i] == e;
    i
  }

  lemma {:induction false} EarlierDiffers(s: State, i: nat, j: nat)
    requires History(s) && i < j < |s.accepted|
    ensures s.accepted[i].job.id != s.accepted[j].job.id
  {
    assert WellPlaced(s.accepted, j);
    assert s.accepted[i] in s.accepted[..j];
  }

  lemma {:induction false} DistinctIds(s: State, i: nat, j: nat)
    requires History(s) && i < |s.accepted| && j < |s.accepted|
    ensures s.accepted[i].job.id == s.accepted[j].job.id ==> i == j
  {
    if i < j {
      EarlierDiffers(s, i, j);
    } else if j < i {
      EarlierDiffers(s, j, i);
    }
  }

  /** A dependency of submission i was submitted earlier. */
  lemma {:induction false} DependencyIndex(s: State, i: nat, d: string) returns (j: nat)
    requires History(s) && i < |s.accepted| && d in s.accepted[i].job.dependsOn
    ensures j < i && s.accepted[j].job.id == d && d in s.records
  {
    assert WellPlaced(s.accepted, i);
    j := IndexOf(s.accepted[..i], d);
    assert s.accepted[j] in s.accepted;
  }

  lemma {:induction false} KnownDependencies(s: State, i: nat)
    requires History(s) && i < |s.accepted|
    ensures forall d | d in s.accepted[i].job.dependsOn :: d in s.records
    ensures s.accepted[i].job.id in s.records
    ensures s.accepted[i].job.id !in s.accepted[i].job.dependsOn
  {
    assert WellPlaced(s.accepted, i) && s.accepted[i] in s.accepted;
    forall d | d in s.accepted[i].job.dependsOn ensures d in s.records {
      var j := DependencyIndex(s, i, d);
    }
  }

  lemma {:induction false} HistorySubmit(s: State, job: Job, profile: Profile, woken: Option<nat>)
    requires History(s)
    requires job.id !in s.records && forall d | d in job.dependsOn :: d in s.records
    ensures History(AfterSubmit(s, job, profile, woken))
  {
    var s' := AfterSubmit(s, job, profile, woken);
    forall i | 0 <= i < |s'.accepted| ensures WellPlaced(s'.accepted, i) {
      if i < |s.accepted| {
        assert WellPlaced(s.accepted, i) && s'.accepted[..i] == s.accepted[..i];
      } else {
        assert s'.accepted[..i] == s.accepted;
      }
    }
    assert s'.records.Keys == Ids(s'.accepted) by {
      forall id ensures id in Ids(s'.accepted) <==> id == job.id || id in Ids(s.accepted) {
        if id in Ids(s.accepted) {
          var e :| e in s.accepted && e.job.id == id;
          assert e in s'.accepted;
        }
        assert s'.accepted[|s.accepted|] in s'.accepted;
      }
    }
  }

  // ---------------------------------------------------------------- the gate under record changes

  /** Nothing known is forgotten and terminal records are never rewritten. */
  ghost predicate Extends(before: map<string, Record>, after: map<string, Record>) {
    forall d | d in before :: d in after && (Terminal(before[d]) ==> after[d] == before[d])
  }

  /** Also no record becomes terminal. */
  ghost predicate SameVerdicts(before: map<string, Record>, after: map<string, Record>) {
    forall d | d in before :: d in after && (after[d] == before[d] || (!Terminal(before[d]) && !Terminal(after[d])))
  }

  lemma {:induction false} GateStable(before: map<string, Record>, after: map<string, Record>, deps: seq<string>)
    requires Extends(before, after)
    requires forall d | d in deps :: d in before
    requires !GateOf(before, deps).Undecided?
    ensures GateOf(after, deps) == GateOf(before, deps)
  {
    if deps != [] && Good(before[deps[0]]) {
      GateStable(before, after, deps[1..]);
    }
  }

  lemma {:induction false} GateSame(before: map<string, Record>, after: map<string, Record>, deps: seq<string>)
    requires SameVerdicts(before, after)
    requires forall d | d in deps :: d in before
    ensures GateOf(after, deps) == GateOf(before, deps)
  {
    if deps != [] && Good(before[deps[0]]) {
      GateSame(before, after, deps[1..]);
    }
  }

  /** Ready exactly when every dependency is good, and then the outputs are the dependencies' own. */
  lemma {:induction false} GateReadyIff(records: map<string, Record>, deps: seq<string>)
    ensures GateOf(records, deps).Ready? <==> forall d | d in deps :: d in records && Good(records[d])
    ensures GateOf(records, deps).Ready? ==>
      var outputs := GateOf(records, deps).outputs;
      && outputs.Keys == (set d | d in deps)
      && forall d | d in deps :: outputs[d] == Exported(records[d])
  {
    if deps != [] {
      assert forall d :: d in deps <==> d == deps[0] || d in deps[1..];
      if deps[0] in records && Good(records[deps[0]]) {
        GateReadyIff(records, deps[1..]);
      }
    }
  }

  /** When all dependencies are settled the gate is decided. */
  lemma {:induction false} GateDecided(records: map<string, Record>, deps: seq<string>)
    requires forall d | d in deps :: d in records && Terminal(records[d])
    ensures !GateOf(records, deps).Undecided?
  {
    if deps != [] && Good(records[deps[0]]) {
      assert forall d | d in deps[1..] :: d in deps;
      GateDecided(records, deps[1..]);
    }
  }

  /** A stuck gate names a settled dependency and says how it fell short. */
  lemma {:induction false} GateStuck(records: map<string, Record>, deps: seq<string>) returns (d: string)
    requires forall d | d in deps :: d in records
    requires GateOf(records, deps).Stuck?
    ensures d in deps && Terminal(records[d]) && !Good(records[d])
    ensures GateOf(records, deps).reason == StuckReason(d, records[d])
  {
    d := deps[0];
    if Good(records[d]) {
      d := GateStuck(records, deps[1..]);
    }
  }

  // ---------------------------------------------------------------- queue and records

  /** Submission i is in the queue exactly while its record is QUEUED. */
  ghost predicate QueuedIff(s: State, i: nat)
    requires i < |s.accepted|
  {
    var e := s.accepted[i];
    e.job.id in s.records && (s.records[e.job.id].phase.Queued? <==> e in s.queue)
  }

  ghost predicate QueueShape(s: State) {
    && (forall k | 0 <= k < |s.queue| :: Placed(s, s.queue[k]))
    && (forall k, l | 0 <= k < l < |s.queue| :: s.queue[k].sequence < s.queue[l].sequence)
    && (forall i | 0 <= i < |s.accepted| :: QueuedIff(s, i))
  }

  ghost predicate Refused(setup: Setup, gate: Gate, reason: BlockReason) {
    || gate == Stuck(reason)
    || (reason == OutputsNotEncodable && gate.Ready? && !Encodes(setup, gate.outputs))
  }

  /** The record of a job says exactly what its dependencies and the oracles dictate for its phase. */
  ghost predicate Explained(setup: Setup, records: map<string, Record>, job: Job)
    requires job.id in records
  {
    var r := records[job.id];
    var gate := GateOf(records, job.dependsOn);
    match r.phase
    case Queued => r == QueuedRecord(job)
    case Running =>
      && gate == Ready(r.dependencyOutputs) && Encodes(setup, r.dependencyOutputs)
      && r == RunningRecord(job, r.dependencyOutputs, r.workerID)
    case Blocked =>
      && r.cause.GateClosed? && Refused(setup, gate, r.cause.reason)
      && r == BlockedRecord(job, r.cause.reason)
    case _ =>
      && gate == Ready(r.dependencyOutputs) && Encodes(setup, r.dependencyOutputs)
      && r == FinishedRecord(job, r.dependencyOutputs, r.workerID, Settled(setup, job.id))
  }

  ghost predicate ExplainedAt(setup: Setup, s: State, i: nat)
    requires i < |s.accepted|
  {
    s.accepted[i].job.id in s.records && Explained(setup, s.records, s.accepted[i].job)
  }

  ghost predicate Explanations(setup: Setup, s: State) {
    forall i | 0 <= i < |s.accepted| :: ExplainedAt(setup, s, i)
  }

  /** An explanation outlives every step that extends the records and leaves this one alone. */
  lemma {:induction false} ExplainedKept(setup: Setup, s: State, after: map<string, Record>, i: nat)
    requires History(s) && i < |s.accepted| && ExplainedAt(setup, s, i)
    requires Extends(s.records, after)
    requires after[s.accepted[i].job.id] == s.records[s.accepted[i].job.id]
    ensures Explained(setup, after, s.accepted[i].job)
  {
    KnownDependencies(s, i);
    if !s.records[s.accepted[i].job.id].phase.Queued? {
      GateStable(s.records, after, s.accepted[i].job.dependsOn);
    }
  }

  /** Rewriting one unsettled record keeps everyone else explained. */
  lemma {:induction false} ExplanationsUpdate(setup: Setup, s: State, s': State, i: nat, r: Record)
    requires History(s) && Explanations(setup, s) && i < |s.accepted|
    requires s'.accepted == s.accepted
    requires s.accepted[i].job.id in s.records
    requires s'.records == s.records[s.accepted[i].job.id := r]
    requires !Terminal(s.records[s.accepted[i].job.id])
    requires Explained(setup, s'.records, s.accepted[i].job)
    ensures Explanations(setup, s')
  {
    forall k | 0 <= k < |s'.accepted| ensures ExplainedAt(setup, s', k) {
      assert ExplainedAt(setup, s, k);
      DistinctIds(s, k, i);
      if k != i {
        ExplainedKept(setup, s, s'.records, k);
      }
    }
  }

  /** A job's own record is not among its dependencies, so rewriting it leaves its gate alone. */
  lemma {:induction false} GateIgnores(records: map<string, Record>, id: string, r: Record, deps: seq<string>)
    requires id !in deps
    ensures GateOf(records[id := r], deps) == GateOf(records, deps)
  {
    if deps != [] { GateIgnores(records, id, r, deps[1..]); }
  }

  // ---------------------------------------------------------------- workers

  /** A worker that executes an entry is the worker its RUNNING record names. */
  ghost predicate Executes(s: State, w: nat)
    requires w < |s.workers|
  {
    s.workers[w].Executing? ==>
      var e := s.workers[w].entry;
      && Placed(s, e) && e.job.id in s.records
      && s.records[e.job.id].phase.Running? && s.records[e.job.id].workerID == w + 1
  }

  /** A RUNNING record is being executed by the worker it names. */
  ghost predicate Executed(s: State, i: nat)
    requires i < |s.accepted|
  {
    var e := s.accepted[i];
    e.job.id in s.records &&
    var r := s.records[e.job.id];
    r.phase.Running? ==> 1 <= r.workerID <= |s.workers| && s.workers[r.workerID - 1] == Executing(e)
  }

  ghost predicate WorkerShape(setup: Setup, s: State) {
    && |s.workers| == (if s.started then setup.workerCount else 0)
    && (forall w | 0 <= w < |s.workers| :: Executes(s, w))
    && (forall i | 0 <= i < |s.accepted| :: Executed(s, i))
  }

  // ---------------------------------------------------------------- counters

  function Busy(x: Worker): nat {
    if x.Executing? || x.Finishing? then 1 else 0
  }

  function Active(x: Worker): nat {
    if x.Awake? || x.Finishing? then 1 else 0
  }

  ghost predicate Counters(setup: Setup, s: State) {
    && s.pending == |s.queue| + Sum(s.workers, Busy)
    && |s.queue| <= setup.queueCapacity
  }

  // ---------------------------------------------------------------- wakeups

  predicate Actionable(records: map<string, Record>, e: QueuedJob) {
    !GateOf(records, e.job.dependsOn).Undecided?
  }

  /** How many queued entries a worker could dispatch or block right now. */
  function ActionableCount(records: map<string, Record>, queue: seq<QueuedJob>): nat {
    if queue == [] then 0
    else (if Actionable(records, queue[0]) then 1 else 0) + ActionableCount(records, queue[1..])
  }

  predicate SomeoneWaits(workers: seq<Worker>) {
    exists w | 0 <= w < |workers| :: workers[w].Waiting?
  }

  predicate SomeoneExecutes(workers: seq<Worker>) {
    exists w | 0 <= w < |workers| :: workers[w].Executing?
  }

  ghost predicate Wakeups(s: State) {
    && (SomeoneWaits(s.workers) ==> ActionableCount(s.records, s.queue) <= Sum(s.workers, Active))
    && (forall w | 0 <= w < |s.workers| && s.workers[w].Exited? :: s.stopped && s.queue == [])
    && (s.stopped && s.queue == [] && SomeoneWaits(s.workers) ==> SomeoneExecutes(s.workers))
  }

  lemma {:induction false} ActionableSame(
    before: map<string, Record>, after: map<string, Record>, queue: seq<QueuedJob>)
    requires forall k | 0 <= k < |queue| :: Actionable(before, queue[k]) == Actionable(after, queue[k])
    ensures ActionableCount(before, queue) == ActionableCount(after, queue)
  {
    if queue != [] {
      assert Actionable(before, queue[0]) == Actionable(after, queue[0]);
      assert forall k | 0 <= k < |queue[1..]| :: queue[1..][k] == queue[k + 1];
      ActionableSame(before, after, queue[1..]);
    }
  }

  lemma {:induction false} ActionableAppend(records: map<string, Record>, queue: seq<QueuedJob>, more: seq<QueuedJob>)
    ensures ActionableCount(records, queue + more) == ActionableCount(records, queue) + ActionableCount(records, more)
  {
    if queue == [] {
      assert queue + more == more;
    } else {
      assert (queue + more)[1..] == queue[1..] + more;
      ActionableAppend(records, queue[1..], more);
    }
  }

  lemma {:induction false} ActionableWithout(records: map<string, Record>, queue: seq<QueuedJob>, k: nat)
    requires k < |queue|
    ensures ActionableCount(records, queue) ==
      ActionableCount(records, Without(queue, k)) + (if Actionable(records, queue[k]) then 1 else 0)
  {
    assert queue == queue[..k] + ([queue[k]] + queue[k + 1..]);
    ActionableAppend(records, queue[..k], [queue[k]] + queue[k + 1..]);
    ActionableAppend(records, queue[..k], queue[k + 1..]);
  }

  lemma {:induction false} ActionableZero(records: map<string, Record>, queue: seq<QueuedJob>)
    ensures ActionableCount(records, queue) == 0 <==> NothingStuck(records, queue) && NothingReady(records, queue)
  {
    if queue != [] {
      ActionableZero(records, queue[1..]);
      var rest := queue[1..];
      assert NothingStuck(records, queue) <==> !IsStuck(records, queue[0]) && NothingStuck(records, rest) by {
        assert forall i | 0 <= i < |rest| :: rest[i] == queue[i + 1];
        if !IsStuck(records, queue[0]) && NothingStuck(records, rest) {
          forall i | 0 <= i < |queue| ensures !IsStuck(records, queue[i]) {
            if i > 0 { assert queue[i] == rest[i - 1]; }
          }
        }
      }
      assert NothingReady(records, queue) <==> !IsReady(records, queue[0]) && NothingReady(records, rest) by {
        assert forall i | 0 <= i < |rest| :: rest[i] == queue[i + 1];
        if !IsReady(records, queue[0]) && NothingReady(records, rest) {
          forall i | 0 <= i < |queue| ensures !IsReady(records, queue[i]) {
            if i > 0 { assert queue[i] == rest[i - 1]; }
          }
        }
      }
    }
  }

  // ---------------------------------------------------------------- event log

  /** The events of one agent, in order. */
  function KindsOf(log: seq<Event>, id: string): seq<EventKind> {
    if log == [] then []
    else
      var last := log[|log| - 1];
      KindsOf(log[..|log| - 1], id) + (if last.id == id then [last.kind] else [])
  }

  /** The complete trace of an agent whose record is r. */
  function TraceOf(r: Record): seq<EventKind> {
    match r.phase
    case Queued => [AgentSubmitted]
    case Running => [AgentSubmitted, PressureSampled, AgentDispatched]
    case Blocked => [AgentSubmitted, AgentBlocked]
    case _ => [AgentSubmitted, PressureSampled, AgentDispatched] + FinishKinds(r)
  }

  ghost predicate Traced(s: State, id: string) {
    KindsOf(s.log, id) == if id in s.records then TraceOf(s.records[id]) else []
  }

  /** Whoever is dispatched at position p depends only on agents verified before p. */
  ghost predicate VerifiedBefore(s: State, p: nat)
    requires p < |s.log|
  {
    s.log[p].kind == AgentDispatched ==>
      && s.log[p].id in s.records
      && forall d | d in s.records[s.log[p].id].dependsOn :: Event(OutputVerified, d) in s.log[..p]
  }

  ghost predicate Logged(s: State) {
    && (forall id :: Traced(s, id))
    && (forall p | 0 <= p < |s.log| :: VerifiedBefore(s, p))
  }

  lemma {:induction false} KindsOfConcat(log: seq<Event>, more: seq<Event>, id: string)
    ensures KindsOf(log + more, id) == KindsOf(log, id) + KindsOf(more, id)
  {
    if more == [] {
      assert log + more == log;
    } else {
      var n := |more| - 1;
      assert (log + more)[..|log| + n] == log + more[..n];
      KindsOfConcat(log, more[..n], id);
    }
  }

  lemma {:induction false} KindsOfTag(kinds: seq<EventKind>, id: string, other: string)
    ensures KindsOf(Tag(kinds, id), other) == if other == id then kinds else []
  {
    if kinds != [] {
      var n := |kinds| - 1;
      assert Tag(kinds, id)[..n] == Tag(kinds[..n], id);
      KindsOfTag(kinds[..n], id, other);
      assert kinds == kinds[..n] + [kinds[n]];
    }
  }

  lemma {:induction false} KindInLog(log: seq<Event>, id: string, kind: EventKind)
    requires kind in KindsOf(log, id)
    ensures Event(kind, id) in log
  {
    var n := |log| - 1;
    if kind in KindsOf(log[..n], id) {
      KindInLog(log[..n], id, kind);
    } else {
      assert log[n] == Event(kind, id);
    }
  }

  // ---------------------------------------------------------------- the invariant

  ghost predicate Inv(setup: Setup, s: State) {
    && ValidSetup(setup)
    && History(s)
    && QueueShape(s)
    && Explanations(setup, s)
    && WorkerShape(setup, s)
    && Counters(setup, s)
    && Wakeups(s)
    && Logged(s)
  }
}
