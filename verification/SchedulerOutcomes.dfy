/** What the runs of the scheduler produce: outcomes that do not depend on the schedule, gates that
    stay true, failures that have a culprit, and an event log with a fixed grammar. */
module SchedulerOutcomes {
  import opened Text
  import opened SchedulerModel
  import opened SchedulerInvariants
  import opened SchedulerPreservation
  import opened SchedulerProgress

  // ---------------------------------------------------------------- reference execution

  /** How a job ends when every dependency has already ended as records says. */
  function Conclude(setup: Setup, records: map<string, Record>, job: Job): Record {
    match GateOf(records, job.dependsOn)
    case Ready(outputs) =>
      if Encodes(setup, outputs) then FinishedRecord(job, outputs, 0, Settled(setup, job.id))
      else BlockedRecord(job, OutputsNotEncodable)
    case Stuck(reason) => BlockedRecord(job, reason)
    case Undecided => QueuedRecord(job)
  }

  /** Run the jobs one at a time in submission order. */
  function Reference(setup: Setup, plan: seq<Job>): map<string, Record> {
    if plan == [] then map[]
    else
      var n := |plan| - 1;
      var before := Reference(setup, plan[..n]);
      before[plan[n].id := Conclude(setup, before, plan[n])]
  }

  function Plan(accepted: seq<QueuedJob>): seq<Job> {
    seq(|accepted|, i requires 0 <= i < |accepted| => accepted[i].job)
  }

  /** A record without the one field that names the schedule: the worker that ran the job. */
  function Outcome(r: Record): Record {
    r.(workerID := 0)
  }

  ghost function JobIds(plan: seq<Job>): set<string> {
    set job | job in plan :: job.id
  }

  ghost predicate OrderedAt(plan: seq<Job>, i: nat)
    requires i < |plan|
  {
    && plan[i].id !in JobIds(plan[..i])
    && forall d | d in plan[i].dependsOn :: d in JobIds(plan[..i])
  }

  /** IDs are new and dependencies come first, as Submit insists. */
  ghost predicate WellOrdered(plan: seq<Job>) {
    forall i | 0 <= i < |plan| :: OrderedAt(plan, i)
  }

  lemma {:induction false} PlanIds(accepted: seq<QueuedJob>, i: nat)
    requires i <= |accepted|
    ensures Plan(accepted)[..i] == Plan(accepted[..i])
    ensures JobIds(Plan(accepted[..i])) == Ids(accepted[..i])
  {
    var prefix := accepted[..i];
    forall id ensures id in JobIds(Plan(prefix)) <==> id in Ids(prefix) {
      if id in JobIds(Plan(prefix)) {
        var job :| job in Plan(prefix) && job.id == id;
        var k :| 0 <= k < i && Plan(prefix)[k] == job;
        assert prefix[k] in prefix;
      }
      if id in Ids(prefix) {
        var k := IndexOf(prefix, id);
        assert Plan(prefix)[k] in Plan(prefix);
      }
    }
  }

  lemma {:induction false} HistoryWellOrdered(s: State)
    requires History(s)
    ensures WellOrdered(Plan(s.accepted))
    ensures JobIds(Plan(s.accepted)) == s.records.Keys
  {
    forall i | 0 <= i < |s.accepted| ensures OrderedAt(Plan(s.accepted), i) {
      assert WellPlaced(s.accepted, i);
      PlanIds(s.accepted, i);
    }
    PlanIds(s.accepted, |s.accepted|);
    assert s.accepted[..|s.accepted|] == s.accepted;
  }

  lemma {:induction false} ReferenceKeys(setup: Setup, plan: seq<Job>)
    ensures Reference(setup, plan).Keys == JobIds(plan)
  {
    if plan != [] {
      var n := |plan| - 1;
      ReferenceKeys(setup, plan[..n]);
      assert plan == plan[..n] + [plan[n]];
    }
  }

  lemma {:induction false} GateRestricted(small: map<string, Record>, big: map<string, Record>, deps: seq<string>)
    requires forall d | d in deps :: d in small && d in big && small[d] == big[d]
    ensures GateOf(small, deps) == GateOf(big, deps)
  {
    if deps != [] && Good(small[deps[0]]) {
      GateRestricted(small, big, deps[1..]);
    }
  }

  lemma {:induction false} OrderedPrefix(plan: seq<Job>, n: nat)
    requires WellOrdered(plan) && n <= |plan|
    ensures WellOrdered(plan[..n])
  {
    forall k | 0 <= k < n ensures OrderedAt(plan[..n], k) {
      assert OrderedAt(plan, k) && plan[..n][..k] == plan[..k];
    }
  }

  lemma {:induction false} EarlierIds(plan: seq<Job>, i: nat, n: nat)
    requires i <= n <= |plan|
    ensures JobIds(plan[..i]) <= JobIds(plan[..n])
    ensures i < n ==> plan[i].id in JobIds(plan[..n])
  {
    forall id | id in JobIds(plan[..i]) ensures id in JobIds(plan[..n]) {
      var job :| job in plan[..i] && job.id == id;
      var k :| 0 <= k < i && plan[..i][k] == job;
      assert plan[..n][k] == job;
    }
    if i < n { assert plan[..n][i] == plan[i]; }
  }

  /** The reference execution is a fixed point: each job is concluded from the final records. */
  lemma {:induction false} ReferenceUnfolds(setup: Setup, plan: seq<Job>, i: nat)
    requires WellOrdered(plan) && i < |plan|
    ensures plan[i].id in Reference(setup, plan)
    ensures Reference(setup, plan)[plan[i].id] == Conclude(setup, Reference(setup, plan), plan[i])
  {
    var n := |plan| - 1;
    var before, full := Reference(setup, plan[..n]), Reference(setup, plan);
    ReferenceKeys(setup, plan[..n]);
    assert OrderedAt(plan, n) && OrderedAt(plan, i);
    EarlierIds(plan, i, n);
    GateRestricted(before, full, plan[i].dependsOn);
    if i < n {
      OrderedPrefix(plan, n);
      ReferenceUnfolds(setup, plan[..n], i);
    }
  }

  lemma {:induction false} ReferenceEnds(setup: Setup, plan: seq<Job>, i: nat)
    requires WellOrdered(plan) && i < |plan|
    ensures plan[i].id in Reference(setup, plan) && Terminal(Reference(setup, plan)[plan[i].id])
    decreases i
  {
    var records := Reference(setup, plan);
    ReferenceUnfolds(setup, plan, i);
    assert OrderedAt(plan, i);
    forall d | d in plan[i].dependsOn ensures d in records && Terminal(records[d]) {
      assert d in JobIds(plan[..i]);
      var job :| job in plan[..i] && job.id == d;
      var j :| 0 <= j < i && plan[..i][j] == job;
      ReferenceEnds(setup, plan, j);
    }
    GateDecided(records, plan[i].dependsOn);
  }

  /** The reference phases, declaratively: BLOCKED when some dependency is not good (or the good
      outputs cannot be encoded), otherwise what the job's own run and verification say. */
  lemma {:induction false} ReferenceMeaning(setup: Setup, plan: seq<Job>, i: nat)
    requires WellOrdered(plan) && i < |plan|
    ensures plan[i].id in Reference(setup, plan)
    ensures var records := Reference(setup, plan);
      var allGood := forall d | d in plan[i].dependsOn :: d in records && Good(records[d]);
      var r := records[plan[i].id];
      && (!allGood ==> r.phase == Blocked)
      && (allGood ==>
            var outputs := map d | d in plan[i].dependsOn :: Exported(records[d]);
            if Encodes(setup, outputs) then
              && r.phase == (if Settled(setup, plan[i].id).error.Some? then Failed else Succeeded)
              && r.output == Settled(setup, plan[i].id).output && r.dependencyOutputs == outputs
            else r.phase == Blocked)
  {
    var records := Reference(setup, plan);
    ReferenceUnfolds(setup, plan, i);
    ReferenceEnds(setup, plan, i);
    GateReadyIff(records, plan[i].dependsOn);
    if forall d | d in plan[i].dependsOn :: d in records && Good(records[d]) {
      assert GateOf(records, plan[i].dependsOn).outputs == map d | d in plan[i].dependsOn :: Exported(records[d]);
    }
  }

  // ---------------------------------------------------------------- schedule independence

  /** A gate that is decided is decided by settled dependencies only. */
  lemma {:induction false} GateAgrees(actual: map<string, Record>, expected: map<string, Record>, deps: seq<string>)
    requires forall d | d in deps :: d in actual && d in expected
    requires forall d | d in deps && Terminal(actual[d]) :: Outcome(actual[d]) == expected[d]
    requires !GateOf(actual, deps).Undecided?
    ensures GateOf(actual, deps) == GateOf(expected, deps)
  {
    if deps != [] && Good(actual[deps[0]]) {
      GateAgrees(actual, expected, deps[1..]);
    }
  }

  lemma {:induction false} AgreesWithReference(setup: Setup, s: State, i: nat)
    requires History(s) && Explanations(setup, s) && i < |s.accepted|
    ensures var id := s.accepted[i].job.id;
      && id in s.records && id in Reference(setup, Plan(s.accepted))
      && (Terminal(s.records[id]) ==> Outcome(s.records[id]) == Reference(setup, Plan(s.accepted))[id])
    decreases i
  {
    var job := s.accepted[i].job;
    var expected := Reference(setup, Plan(s.accepted));
    HistoryWellOrdered(s);
    assert Plan(s.accepted)[i] == job;
    ReferenceUnfolds(setup, Plan(s.accepted), i);
    assert ExplainedAt(setup, s, i);
    forall d | d in job.dependsOn
      ensures d in s.records && d in expected
      ensures Terminal(s.records[d]) ==> Outcome(s.records[d]) == expected[d]
    {
      var j := DependencyIndex(s, i, d);
      AgreesWithReference(setup, s, j);
    }
    if Terminal(s.records[job.id]) {
      GateAgrees(s.records, expected, job.dependsOn);
    }
  }

  /** Every job that has ended, in any reachable state of any schedule, ended as the one-at-a-time
      reference execution says: phase, output, injected dependency outputs, and for a blocked job
      the very dependency that is to blame. */
  lemma {:induction false} MatchesReference(setup: Setup, s: State, id: string)
    requires ValidSetup(setup) && Reachable(setup, s)
    requires id in s.records && Terminal(s.records[id])
    ensures id in Reference(setup, Plan(s.accepted))
    ensures Outcome(s.records[id]) == Reference(setup, Plan(s.accepted))[id]
  {
    ReachableInv(setup, s);
    AgreesWithReference(setup, s, IndexOf(s.accepted, id));
  }

  /** Two complete runs over the same submissions and the same oracles agree on every record,
      whatever their policies, worker counts, capacities, timing and stops. */
  lemma {:induction false} ScheduleIndependence(setup1: Setup, s1: State, setup2: Setup, s2: State)
    requires ValidSetup(setup1) && Reachable(setup1, s1) && AllTerminal(s1)
    requires ValidSetup(setup2) && Reachable(setup2, s2) && AllTerminal(s2)
    requires setup1.run == setup2.run && setup1.verify == setup2.verify && setup1.encodable == setup2.encodable
    requires Plan(s1.accepted) == Plan(s2.accepted)
    ensures s1.records.Keys == s2.records.Keys
    ensures forall id | id in s1.records :: Outcome(s1.records[id]) == Outcome(s2.records[id])
  {
    ReachableInv(setup1, s1);
    ReachableInv(setup2, s2);
    HistoryWellOrdered(s1);
    HistoryWellOrdered(s2);
    SameOracles(setup1, setup2, Plan(s1.accepted));
    forall id | id in s1.records ensures Outcome(s1.records[id]) == Outcome(s2.records[id]) {
      MatchesReference(setup1, s1, id);
      MatchesReference(setup2, s2, id);
    }
  }

  lemma {:induction false} SameOracles(setup1: Setup, setup2: Setup, plan: seq<Job>)
    requires setup1.run == setup2.run && setup1.verify == setup2.verify && setup1.encodable == setup2.encodable
    ensures Reference(setup1, plan) == Reference(setup2, plan)
  {
    if plan != [] { SameOracles(setup1, setup2, plan[..|plan| - 1]); }
  }

  // ---------------------------------------------------------------- gates stay true

  predicate Ran(r: Record) {
    r.phase.Running? || r.phase.Succeeded? || r.phase.Failed?
  }

  /** A later record table: nothing is lost, ended records are frozen, a job that was dispatched
      keeps its dependency outputs. */
  ghost predicate Later(before: map<string, Record>, after: map<string, Record>) {
    forall id | id in before ::
      && id in after && after[id].dependsOn == before[id].dependsOn
      && (Terminal(before[id]) ==> after[id] == before[id])
      && (Ran(before[id]) ==> Ran(after[id]) && after[id].dependencyOutputs == before[id].dependencyOutputs)
  }

  lemma {:induction false} OneRecordLater(records: map<string, Record>, id: string, r: Record)
    requires id in records && !Terminal(records[id]) && r.dependsOn == records[id].dependsOn
    requires Ran(records[id]) ==> Ran(r) && r.dependencyOutputs == records[id].dependencyOutputs
    ensures Later(records, records[id := r])
  {}

  lemma {:induction false} BlockLater(setup: Setup, s: State, k: nat, reason: BlockReason)
    requires History(s) && QueueShape(s) && Explanations(setup, s) && k < |s.queue|
    requires Refused(setup, GateOf(s.records, s.queue[k].job.dependsOn), reason)
    ensures Later(s.records, AfterBlock(s, k, reason).records)
  {
    BlockExplained(setup, s, k, reason);
    OneRecordLater(s.records, s.queue[k].job.id, BlockedRecord(s.queue[k].job, reason));
  }

  lemma {:induction false} DispatchLater(setup: Setup, s: State, w: nat, k: nat)
    requires History(s) && QueueShape(s) && Explanations(setup, s) && Enabled(setup, s, Dispatch(w, k))
    ensures Later(s.records, AfterDispatch(s, w, k).records)
  {
    DispatchExplained(setup, s, w, k);
    var job := s.queue[k].job;
    OneRecordLater(s.records, job.id, RunningRecord(job, GateOf(s.records, job.dependsOn).outputs, w + 1));
  }

  lemma {:induction false} FinishLater(setup: Setup, s: State, w: nat)
    requires History(s) && Explanations(setup, s) && WorkerShape(setup, s) && Enabled(setup, s, Finish(w))
    ensures Later(s.records, Apply(setup, s, Finish(w)).records)
  {
    FinishExplained(setup, s, w);
    var id := s.workers[w].entry.job.id;
    OneRecordLater(s.records, id, Apply(setup, s, Finish(w)).records[id]);
  }

  lemma {:induction false} StepLater(setup: Setup, s: State, step: Step)
    requires Inv(setup, s) && Enabled(setup, s, step)
    ensures Later(s.records, Apply(setup, s, step).records)
  {
    match step
    case Block(w) =>
      BlockLater(setup, s, FirstStuck(s.records, s.queue),
                 GateOf(s.records, s.queue[FirstStuck(s.records, s.queue)].job.dependsOn).reason);
    case Refuse(w, k) => BlockLater(setup, s, k, OutputsNotEncodable);
    case Dispatch(w, k) => DispatchLater(setup, s, w, k);
    case Finish(w) => FinishLater(setup, s, w);
    case _ =>
  }

  lemma {:induction false} RunLater(setup: Setup, s: State, steps: seq<Step>)
    requires Inv(setup, s) && CanRun(setup, s, steps)
    ensures Later(s.records, RunFrom(setup, s, steps).records)
    decreases |steps|
  {
    if steps != [] {
      StepLater(setup, s, steps[0]);
      StepInv(setup, s, steps[0]);
      RunLater(setup, Apply(setup, s, steps[0]), steps[1..]);
    }
  }

  /** Terminal records are never rewritten, over any continuation of any run. */
  lemma {:induction false} TerminalForever(setup: Setup, s: State, steps: seq<Step>, id: string)
    requires ValidSetup(setup) && Reachable(setup, s) && CanRun(setup, s, steps)
    requires id in s.records && Terminal(s.records[id])
    ensures id in RunFrom(setup, s, steps).records
    ensures RunFrom(setup, s, steps).records[id] == s.records[id]
  {
    ReachableInv(setup, s);
    RunLater(setup, s, steps);
  }

  lemma {:induction false} GateNow(setup: Setup, s: State, id: string)
    requires History(s) && Explanations(setup, s) && id in s.records && Ran(s.records[id])
    ensures var r := s.records[id];
      && r.dependencyOutputs.Keys == (set d | d in r.dependsOn)
      && forall d | d in r.dependsOn ::
           d in s.records && Good(s.records[d]) && r.dependencyOutputs[d] == Exported(s.records[d])
  {
    assert ExplainedAt(setup, s, IndexOf(s.accepted, id));
    GateReadyIff(s.records, s.records[id].dependsOn);
  }

  /** Once dispatched, in every later state: all dependencies are SUCCEEDED with committed and
      verified output, the injected outputs cover exactly the dependencies, are never changed, and
      still equal the dependencies' records. */
  lemma {:induction false} GateSafety(setup: Setup, s: State, steps: seq<Step>, id: string)
    requires ValidSetup(setup) && Reachable(setup, s) && CanRun(setup, s, steps)
    requires id in s.records && Ran(s.records[id])
    ensures var later := RunFrom(setup, s, steps).records;
      && id in later && Ran(later[id])
      && later[id].dependencyOutputs == s.records[id].dependencyOutputs
      && s.records[id].dependencyOutputs.Keys == (set d | d in s.records[id].dependsOn)
      && forall d | d in s.records[id].dependsOn ::
           && d in later && Good(later[d])
           && s.records[id].dependencyOutputs[d] == Exported(later[d])
  {
    ReachableInv(setup, s);
    RunLater(setup, s, steps);
    RunInv(setup, s, steps);
    GateNow(setup, RunFrom(setup, s, steps), id);
  }

  /** SUCCEEDED with committed output implies verified, so the gate's "unknown" and "failed
      integrity verification" answers never block anyone. */
  lemma {:induction false} IntegrityBranchesUnreachable(setup: Setup, s: State)
    requires ValidSetup(setup) && Reachable(setup, s)
    ensures forall id | id in s.records && s.records[id].phase.Succeeded? && s.records[id].output.committed ::
      s.records[id].output.verified
    ensures forall id | id in s.records && s.records[id].phase.Blocked? ::
      && s.records[id].cause.GateClosed?
      && !s.records[id].cause.reason.UnknownDependency? && !s.records[id].cause.reason.NotVerified?
  {
    ReachableInv(setup, s);
    forall id | id in s.records && s.records[id].phase.Succeeded? && s.records[id].output.committed
      ensures s.records[id].output.verified
    {
      assert ExplainedAt(setup, s, IndexOf(s.accepted, id));
    }
    forall id | id in s.records && s.records[id].phase.Blocked?
      ensures s.records[id].cause.GateClosed?
      ensures !s.records[id].cause.reason.UnknownDependency? && !s.records[id].cause.reason.NotVerified?
    {
      var i := IndexOf(s.accepted, id);
      assert ExplainedAt(setup, s, i);
      KnownDependencies(s, i);
      if GateOf(s.records, s.records[id].dependsOn).Stuck? {
        var d := GateStuck(s.records, s.records[id].dependsOn);
      }
    }
  }

  // ---------------------------------------------------------------- what records say of the runs behind them

  lemma {:induction false} EndedFrom(setup: Setup, s: State, id: string)
    requires ValidSetup(setup) && Reachable(setup, s)
    requires id in s.records && (s.records[id].phase.Succeeded? || s.records[id].phase.Failed?)
    ensures var r := s.records[id];
      r == FinishedRecord(Job(id, r.dependsOn), r.dependencyOutputs, r.workerID, Settled(setup, id))
  {
    ReachableInv(setup, s);
    assert ExplainedAt(setup, s, IndexOf(s.accepted, id));
  }

  /** A job that ran has SUCCEEDED exactly if its executor reported no error and the verifier accepted what it
      committed, if anything. Its record has the executor's output, and the verifier's words on it field by field. */
  lemma {:induction false} EndedRecord(setup: Setup, s: State, id: string)
    requires ValidSetup(setup) && Reachable(setup, s)
    requires id in s.records && (s.records[id].phase.Succeeded? || s.records[id].phase.Failed?)
    ensures var r, ran, verdict := s.records[id], setup.run(id), setup.verify(id);
      && r.id == id && r.output.committed == ran.output.committed && r.output.artifacts == ran.output.artifacts
      && (r.phase.Succeeded? <==> ran.error.None? && (ran.output.committed ==> verdict.Accepted?))
      && (ran.error.Some? ==> r.output == ran.output && r.cause == RunFailed(ran.error.value))
      && (ran.error.None? && !ran.output.committed ==> r.output == ran.output && r.cause == NoCause)
      && (ran.error.None? && ran.output.committed && verdict.Accepted? ==>
        && r.cause == NoCause && r.output.verified && r.output.verificationError == ""
        && r.output.scheme == verdict.scheme && r.output.manifestSHA256 == verdict.manifestSHA256
        && r.output.verifiedAt == Some(verdict.verifiedAt))
      && (ran.error.None? && ran.output.committed && verdict.Rejected? ==>
        && r.cause == RunFailed("verify committed Agent output: " + verdict.message)
        && !r.output.verified && r.output.verificationError == verdict.message
        && r.output.scheme == ran.output.scheme && r.output.manifestSHA256 == ran.output.manifestSHA256
        && r.output.verifiedAt == ran.output.verifiedAt)
  {
    EndedFrom(setup, s, id);
  }

  /** What a dispatched agent is told of a dependency: where that agent's own commit went, and how that very output
      was verified. */
  lemma {:induction false} HandedOutputSays(setup: Setup, s: State, id: string, d: string)
    requires ValidSetup(setup) && Reachable(setup, s)
    requires id in s.records && Ran(s.records[id]) && d in s.records[id].dependsOn
    ensures d in s.records[id].dependencyOutputs
    ensures var handed, artifacts, verdict := s.records[id].dependencyOutputs[d], setup.run(d).output.artifacts, setup.verify(d);
      && handed.output.agentID == d && handed.output.transactionID == artifacts.transactionID
      && handed.output.commitPath == artifacts.final && handed.output.manifestPath == artifacts.manifestPath
      && handed.output.fileCount == artifacts.fileCount && handed.output.totalBytes == artifacts.totalBytes
      && verdict.Accepted? && handed.scheme == verdict.scheme
      && handed.manifestSHA256 == verdict.manifestSHA256 && handed.verifiedAt == Some(verdict.verifiedAt)
  {
    ReachableInv(setup, s);
    GateNow(setup, s, id);
    EndedRecord(setup, s, d);
  }

  lemma {:induction false} GateStuckAt(records: map<string, Record>, deps: seq<string>) returns (k: nat)
    requires forall d | d in deps :: d in records
    requires GateOf(records, deps).Stuck?
    ensures k < |deps| && (forall j | 0 <= j < k :: Good(records[deps[j]]))
    ensures Terminal(records[deps[k]]) && !Good(records[deps[k]])
    ensures GateOf(records, deps).reason == StuckReason(deps[k], records[deps[k]])
  {
    k := 0;
    if Good(records[deps[0]]) {
      k := GateStuckAt(records, deps[1..]);
      k := k + 1;
    }
  }

  /** What the reason says of the dependency it names. */
  predicate ReasonHolds(reason: BlockReason, d: string, r: Record) {
    match reason
    case DependencyFailed(id) => id == d && r.phase.Failed?
    case DependencyBlocked(id) => id == d && r.phase.Blocked?
    case NoCommittedOutput(id) => id == d && r.phase.Succeeded? && !r.output.committed
    case _ => false
  }

  lemma {:induction false} BlockedBy(setup: Setup, s: State, id: string)
    requires ValidSetup(setup) && Reachable(setup, s) && id in s.records && s.records[id].phase.Blocked?
    ensures s.records[id].cause.GateClosed?
    ensures Refused(setup, GateOf(s.records, s.records[id].dependsOn), s.records[id].cause.reason)
    ensures forall d | d in s.records[id].dependsOn :: d in s.records
  {
    ReachableInv(setup, s);
    var i := IndexOf(s.accepted, id);
    assert ExplainedAt(setup, s, i);
    KnownDependencies(s, i);
  }

  lemma {:induction false} NotEncoded(setup: Setup, records: map<string, Record>, deps: seq<string>)
    requires GateOf(records, deps).Ready? && !Encodes(setup, GateOf(records, deps).outputs)
    ensures deps != [] && forall d | d in deps :: d in records && Good(records[d])
    ensures !setup.encodable(map d | d in deps :: Exported(records[d]))
  {
    GateReadyIff(records, deps);
    assert GateOf(records, deps).outputs == map d | d in deps :: Exported(records[d]);
  }

  /** A BLOCKED job names the first of its dependencies that is no good and says truly why; or else all are good and
      their outputs could not be encoded. */
  lemma {:induction false} BlockReasonHolds(setup: Setup, s: State, id: string) returns (k: nat)
    requires ValidSetup(setup) && Reachable(setup, s) && id in s.records && s.records[id].phase.Blocked?
    ensures s.records[id].cause.GateClosed?
    ensures forall d | d in s.records[id].dependsOn :: d in s.records
    ensures var r, reason := s.records[id], s.records[id].cause.reason;
      if reason == OutputsNotEncodable then
        && (forall d | d in r.dependsOn :: Good(s.records[d])) && r.dependsOn != []
        && !setup.encodable(map d | d in r.dependsOn :: Exported(s.records[d]))
      else
        && k < |r.dependsOn| && (forall j | 0 <= j < k :: Good(s.records[r.dependsOn[j]]))
        && ReasonHolds(reason, r.dependsOn[k], s.records[r.dependsOn[k]])
  {
    BlockedBy(setup, s, id);
    IntegrityBranchesUnreachable(setup, s);
    k := 0;
    if GateOf(s.records, s.records[id].dependsOn).Stuck? {
      k := GateStuckAt(s.records, s.records[id].dependsOn);
    } else {
      NotEncoded(setup, s.records, s.records[id].dependsOn);
    }
  }

  // ---------------------------------------------------------------- blame

  /** An agent that spoils its dependents by itself. */
  predicate Culprit(r: Record) {
    || r.phase.Failed?
    || (r.phase.Succeeded? && !r.output.committed)
    || r.cause == GateClosed(OutputsNotEncodable)
  }

  /** A path of dependency edges through BLOCKED agents down to a culprit. */
  ghost predicate BlameChain(records: map<string, Record>, path: seq<string>) {
    && path != []
    && (forall k | 0 <= k < |path| :: path[k] in records)
    && (forall k | 0 <= k < |path| - 1 ::
          records[path[k]].phase.Blocked? && path[k + 1] in records[path[k]].dependsOn)
    && Culprit(records[path[|path| - 1]])
  }

  lemma {:induction false} ChainGrows(records: map<string, Record>, id: string, rest: seq<string>)
    requires BlameChain(records, rest)
    requires id in records && records[id].phase.Blocked? && rest[0] in records[id].dependsOn
    ensures BlameChain(records, [id] + rest)
  {
    var path := [id] + rest;
    forall k | 0 <= k < |path| - 1
      ensures records[path[k]].phase.Blocked? && path[k + 1] in records[path[k]].dependsOn
    {
      if k > 0 { assert path[k] == rest[k - 1] && path[k + 1] == rest[k]; }
    }
  }

  lemma {:induction false} BlameFrom(setup: Setup, s: State, i: nat) returns (path: seq<string>)
    requires History(s) && Explanations(setup, s) && i < |s.accepted|
    requires s.accepted[i].job.id in s.records && s.records[s.accepted[i].job.id].phase.Blocked?
    ensures BlameChain(s.records, path) && path[0] == s.accepted[i].job.id
    decreases i
  {
    var job := s.accepted[i].job;
    var id := job.id;
    assert ExplainedAt(setup, s, i);
    KnownDependencies(s, i);
    if s.records[id].cause == GateClosed(OutputsNotEncodable) {
      path := [id];
    } else {
      var d := GateStuck(s.records, job.dependsOn);
      var j := DependencyIndex(s, i, d);
      assert ExplainedAt(setup, s, j);
      var rest := [d];
      if s.records[d].phase.Blocked? { rest := BlameFrom(setup, s, j); }
      ChainGrows(s.records, id, rest);
      path := [id] + rest;
    }
  }

  /** Every BLOCKED agent never ran and has a chain of dependencies ending at an agent that FAILED,
      SUCCEEDED without committed output, or could not be handed its dependencies' outputs. */
  lemma {:induction false} BlockedHasCulprit(setup: Setup, s: State, id: string) returns (path: seq<string>)
    requires ValidSetup(setup) && Reachable(setup, s)
    requires id in s.records && s.records[id].phase.Blocked?
    ensures BlameChain(s.records, path) && path[0] == id
    ensures Event(AgentDispatched, id) !in s.log
  {
    ReachableInv(setup, s);
    path := BlameFrom(setup, s, IndexOf(s.accepted, id));
    assert Traced(s, id);
    if Event(AgentDispatched, id) in s.log { KindOfMember(s.log, id, AgentDispatched); }
  }

  lemma {:induction false} KindOfMember(log: seq<Event>, id: string, kind: EventKind)
    requires Event(kind, id) in log
    ensures kind in KindsOf(log, id)
  {
    var n := |log| - 1;
    if log[n] != Event(kind, id) {
      assert log == log[..n] + [log[n]];
      KindOfMember(log[..n], id, kind);
    }
  }

  // ---------------------------------------------------------------- event log

  /** Submitted (Blocked | Sampled Dispatched Committed? (Verified | VerificationFailed)? Finished). */
  ghost predicate CompleteTrace(kinds: seq<EventKind>) {
    || kinds == [AgentSubmitted, AgentBlocked]
    || exists committed: seq<EventKind>, verdict: seq<EventKind> ::
         && (committed == [] || committed == [OutputCommitted])
         && (verdict == [] || verdict == [OutputVerified] || verdict == [VerificationFailed])
         && kinds == [AgentSubmitted, PressureSampled, AgentDispatched] + committed + verdict + [AgentFinished]
  }

  lemma {:induction false} FinishedTrace(r: Record)
    requires r.phase.Succeeded? || r.phase.Failed?
    ensures CompleteTrace(TraceOf(r))
  {
    var committed := if r.output.committed then [OutputCommitted] else [];
    var verdict := if r.output.verified then [OutputVerified]
                   else if r.output.verificationError != "" then [VerificationFailed] else [];
    assert TraceOf(r) == [AgentSubmitted, PressureSampled, AgentDispatched] + committed + verdict + [AgentFinished];
  }

  lemma {:induction false} TraceGrows(r: Record)
    ensures exists whole :: CompleteTrace(whole) && TraceOf(r) <= whole
    ensures Terminal(r) ==> CompleteTrace(TraceOf(r))
  {
    if r.phase.Succeeded? || r.phase.Failed? {
      FinishedTrace(r);
    } else {
      var whole := [AgentSubmitted, PressureSampled, AgentDispatched] + [] + [] + [AgentFinished];
      assert CompleteTrace(whole);
      assert CompleteTrace([AgentSubmitted, AgentBlocked]);
      assert r.phase.Queued? ==> TraceOf(r) <= [AgentSubmitted, AgentBlocked];
      assert r.phase.Running? ==> TraceOf(r) <= whole;
    }
  }

  lemma {:induction false} KindsOfPrefix(log: seq<Event>, p: nat, id: string)
    requires p <= |log|
    ensures KindsOf(log[..p], id) <= KindsOf(log, id)
  {
    KindsOfConcat(log[..p], log[p..], id);
    assert log == log[..p] + log[p..];
  }

  /** At every moment, even between the events of one critical section, an agent's events are a
      prefix of a complete trace; an agent that has ended has a complete trace. */
  lemma {:induction false} TraceOrder(setup: Setup, s: State, p: nat, id: string)
    requires ValidSetup(setup) && Reachable(setup, s) && p <= |s.log|
    ensures exists whole :: CompleteTrace(whole) && KindsOf(s.log[..p], id) <= whole
    ensures id in s.records && Terminal(s.records[id]) ==> CompleteTrace(KindsOf(s.log, id))
  {
    ReachableInv(setup, s);
    assert Traced(s, id);
    KindsOfPrefix(s.log, p, id);
    if id in s.records {
      TraceGrows(s.records[id]);
      var whole :| CompleteTrace(whole) && TraceOf(s.records[id]) <= whole;
      assert KindsOf(s.log[..p], id) <= whole;
    } else {
      assert CompleteTrace([AgentSubmitted, AgentBlocked]) && KindsOf(s.log[..p], id) <= [AgentSubmitted, AgentBlocked];
    }
  }

  lemma {:induction false} FinishMembers(r: Record, kind: EventKind)
    ensures kind in FinishKinds(r) <==>
      || (kind == OutputCommitted && r.output.committed) || (kind == OutputVerified && r.output.verified)
      || (kind == VerificationFailed && !r.output.verified && r.output.verificationError != "")
      || kind == AgentFinished
  {}

  lemma {:induction false} TraceMembers(r: Record, kind: EventKind)
    requires r.phase.Succeeded? || r.phase.Failed?
    ensures kind in TraceOf(r) <==>
      kind in {AgentSubmitted, PressureSampled, AgentDispatched} || kind in FinishKinds(r)
  {}

  lemma {:induction false} EndedTrace(setup: Setup, s: State, id: string)
    requires ValidSetup(setup) && Reachable(setup, s) && id in s.records
    ensures KindsOf(s.log, id) == TraceOf(s.records[id])
  {
    ReachableInv(setup, s);
    assert Traced(s, id);
  }

  lemma {:induction false} EndedMembers(setup: Setup, s: State, id: string, kind: EventKind)
    requires ValidSetup(setup) && Reachable(setup, s)
    requires id in s.records && (s.records[id].phase.Succeeded? || s.records[id].phase.Failed?)
    ensures var r := s.records[id];
      kind in KindsOf(s.log, id) <==>
        || kind in {AgentSubmitted, PressureSampled, AgentDispatched, AgentFinished}
        || (kind == OutputCommitted && r.output.committed) || (kind == OutputVerified && r.output.verified)
        || (kind == VerificationFailed && !r.output.verified && r.output.verificationError != "")
  {
    EndedTrace(setup, s, id);
    TraceMembers(s.records[id], kind);
    FinishMembers(s.records[id], kind);
  }

  /** Which events end an agent's trace is decided by its record, each way. */
  lemma {:induction false} FinalEvents(setup: Setup, s: State, id: string)
    requires ValidSetup(setup) && Reachable(setup, s)
    requires id in s.records && (s.records[id].phase.Succeeded? || s.records[id].phase.Failed?)
    ensures var kinds, r := KindsOf(s.log, id), s.records[id];
      && (OutputCommitted in kinds <==> r.output.committed)
      && (OutputVerified in kinds <==> r.output.verified)
      && (VerificationFailed in kinds <==> !r.output.verified && r.output.verificationError != "")
      && AgentFinished in kinds && AgentDispatched in kinds && PressureSampled in kinds && AgentBlocked !in kinds
  {
    EndedMembers(setup, s, id, OutputCommitted);
    EndedMembers(setup, s, id, OutputVerified);
    EndedMembers(setup, s, id, VerificationFailed);
    EndedMembers(setup, s, id, AgentFinished);
    EndedMembers(setup, s, id, AgentDispatched);
    EndedMembers(setup, s, id, PressureSampled);
    EndedMembers(setup, s, id, AgentBlocked);
  }

  /** So an agent's events tell what its executor and the verifier did. */
  lemma {:induction false} EventsTell(setup: Setup, s: State, id: string)
    requires ValidSetup(setup) && Reachable(setup, s)
    requires id in s.records && (s.records[id].phase.Succeeded? || s.records[id].phase.Failed?)
    ensures var kinds, ran, verdict := KindsOf(s.log, id), setup.run(id), setup.verify(id);
      && (OutputCommitted in kinds <==> ran.output.committed)
      && (ran.error.None? && ran.output.committed ==>
        && (OutputVerified in kinds <==> verdict.Accepted?)
        && (VerificationFailed in kinds <==> verdict.Rejected? && verdict.message != ""))
  {
    FinalEvents(setup, s, id);
    EndedRecord(setup, s, id);
  }

  /** In the global log, an agent's dispatch comes after the verification of each dependency. */
  lemma {:induction false} VerifiedBeforeDispatch(setup: Setup, s: State, p: nat, d: string)
    requires ValidSetup(setup) && Reachable(setup, s)
    requires p < |s.log| && s.log[p].kind == AgentDispatched
    ensures s.log[p].id in s.records
    ensures d in s.records[s.log[p].id].dependsOn ==> exists q | 0 <= q < p :: s.log[q] == Event(OutputVerified, d)
  {
    ReachableInv(setup, s);
    assert VerifiedBefore(s, p);
    if d in s.records[s.log[p].id].dependsOn {
      assert Event(OutputVerified, d) in s.log[..p];
      var q :| 0 <= q < p && s.log[..p][q] == Event(OutputVerified, d);
      assert s.log[q] == Event(OutputVerified, d);
    }
  }
}
