/** No deadlock, no lost wakeup, and an explicit bound on the length of every run. */
module SchedulerProgress {
  import opened Text
  import opened Sums
  import opened SchedulerModel
  import opened SchedulerInvariants
  import opened SchedulerPreservation

  ghost predicate Unfinished(s: State) {
    exists id :: id in s.records && !Terminal(s.records[id])
  }

  ghost predicate AllTerminal(s: State) {
    forall id | id in s.records :: Terminal(s.records[id])
  }

  predicate Alive(x: Worker) {
    x.Awake? || x.Executing? || x.Finishing?
  }

  predicate SomeoneAlive(workers: seq<Worker>) {
    exists w | 0 <= w < |workers| :: Alive(workers[w])
  }

  // ---------------------------------------------------------------- deadlock freedom

  lemma {:induction false} OldestFirst(s: State, i: nat)
    requires QueueShape(s) && i < |s.accepted| && s.accepted[i].sequence == i + 1
    ensures s.accepted[i] in s.queue ==> s.queue[0].sequence <= i + 1
  {
    if s.accepted[i] in s.queue {
      var k :| 0 <= k < |s.queue| && s.queue[k] == s.accepted[i];
      assert k > 0 ==> s.queue[0].sequence < s.queue[k].sequence;
    }
  }

  lemma {:induction false} QueuedAreUnfinished(s: State)
    requires QueueShape(s)
    ensures s.queue != [] ==> Unfinished(s)
  {
    if s.queue != [] {
      assert Placed(s, s.queue[0]) && s.queue[0] in s.queue;
      assert QueuedIff(s, s.queue[0].sequence - 1);
    }
  }

  /** Once nothing runs, the oldest queued entry can be dispatched or blocked. */
  lemma {:induction false} OldestActionable(setup: Setup, s: State)
    requires History(s) && QueueShape(s) && WorkerShape(setup, s)
    requires s.queue != [] && !SomeoneExecutes(s.workers)
    ensures Actionable(s.records, s.queue[0])
  {
    var e := s.queue[0];
    assert Placed(s, e);
    var i := e.sequence - 1;
    KnownDependencies(s, i);
    forall d | d in e.job.dependsOn ensures Terminal(s.records[d]) {
      var j := DependencyIndex(s, i, d);
      assert QueuedIff(s, j) && Executed(s, j);
      assert WellPlaced(s.accepted, j) && WellPlaced(s.accepted, i);
      OldestFirst(s, j);
    }
    GateDecided(s.records, e.job.dependsOn);
  }

  /** A started scheduler with an unfinished job has a worker that can move. */
  lemma {:induction false} NoDeadlockInv(setup: Setup, s: State)
    requires Inv(setup, s) && s.started && Unfinished(s)
    ensures SomeoneAlive(s.workers)
  {
    var id :| id in s.records && !Terminal(s.records[id]);
    var i := IndexOf(s.accepted, id);
    assert QueuedIff(s, i) && Executed(s, i);
    if s.records[id].phase.Running? {
      assert Alive(s.workers[s.records[id].workerID - 1]);
    } else if SomeoneExecutes(s.workers) {
      var w :| 0 <= w < |s.workers| && s.workers[w].Executing?;
      assert Alive(s.workers[w]);
    } else {
      OldestActionable(setup, s);
      assert ActionableCount(s.records, s.queue) > 0;
      if s.workers[0].Waiting? {
        SumZero(s.workers, Active);
        var x :| x in s.workers && Active(x) > 0;
        var w :| 0 <= w < |s.workers| && s.workers[w] == x;
        assert Alive(s.workers[w]);
      } else {
        assert Alive(s.workers[0]);
      }
    }
  }

  /** In every reachable started state with a QUEUED or RUNNING job, a job is executing or some
      worker is awake. */
  lemma {:induction false} NoDeadlock(setup: Setup, s: State)
    requires ValidSetup(setup) && Reachable(setup, s) && s.started && Unfinished(s)
    ensures SomeoneAlive(s.workers)
  {
    ReachableInv(setup, s);
    NoDeadlockInv(setup, s);
  }

  /** While a worker waits, every entry that could be dispatched or blocked has an awake worker
      of its own; workers return only after Stop with nothing queued. */
  lemma {:induction false} NoLostWakeups(setup: Setup, s: State)
    requires ValidSetup(setup) && Reachable(setup, s)
    ensures SomeoneWaits(s.workers) ==> ActionableCount(s.records, s.queue) <= Sum(s.workers, Active)
    ensures Exited in s.workers ==> s.stopped && s.queue == []
  {
    ReachableInv(setup, s);
  }

  // ---------------------------------------------------------------- progress

  predicate IsWorkerStep(step: Step) {
    !step.Submit? && !step.Start? && !step.Stop?
  }

  /** No worker can take another step. */
  ghost predicate Halted(setup: Setup, s: State) {
    forall step: Step | IsWorkerStep(step) :: !Enabled(setup, s, step)
  }

  /** A worker that is alive always has its next step. */
  lemma {:induction false} AliveMoves(setup: Setup, s: State, w: nat) returns (step: Step)
    requires Inv(setup, s) && w < |s.workers| && Alive(s.workers[w])
    ensures IsWorkerStep(step) && Enabled(setup, s, step)
  {
    assert Executes(s, w);
    var k := FirstStuck(s.records, s.queue);
    forall l | 0 <= l < |s.queue| ensures s.queue[l].job.id in s.records {
      assert Placed(s, s.queue[l]);
      KnownDependencies(s, s.queue[l].sequence - 1);
    }
    if s.workers[w].Executing? {
      step := Finish(w);
    } else if s.workers[w].Finishing? {
      step := Done(w);
    } else if k < |s.queue| {
      step := Block(w);
    } else if NothingReady(s.records, s.queue) {
      step := if s.queue == [] && s.stopped then Exit(w) else Sleep(w);
    } else {
      var l :| 0 <= l < |s.queue| && IsReady(s.records, s.queue[l]);
      step := if Encodes(setup, GateOf(s.records, s.queue[l].job.dependsOn).outputs)
              then Dispatch(w, l) else Refuse(w, l);
    }
  }

  lemma {:induction false} StartedRest(setup: Setup, s: State)
    requires Inv(setup, s) && s.started && Halted(setup, s)
    ensures AllTerminal(s) && s.queue == [] && s.pending == 0
    ensures forall w | 0 <= w < |s.workers| :: s.workers[w] == if s.stopped then Exited else Waiting
  {
    forall w | 0 <= w < |s.workers| ensures !Alive(s.workers[w]) {
      if Alive(s.workers[w]) { var step := AliveMoves(setup, s, w); }
    }
    if Unfinished(s) { NoDeadlockInv(setup, s); }
    QueuedAreUnfinished(s);
    SumZero(s.workers, Busy);
  }

  /** Before Start there are no workers, and all that was ever accepted is in the queue. */
  ghost predicate Untouched(s: State) {
    s.queue == s.accepted && s.workers == []
  }

  lemma {:induction false} UntouchedStep(setup: Setup, s: State, step: Step)
    requires (s.started || Untouched(s)) && Enabled(setup, s, step)
    ensures Apply(setup, s, step).started || Untouched(Apply(setup, s, step))
  {}

  lemma {:induction false} UntouchedRun(setup: Setup, s: State, steps: seq<Step>)
    requires (s.started || Untouched(s)) && CanRun(setup, s, steps)
    ensures RunFrom(setup, s, steps).started || Untouched(RunFrom(setup, s, steps))
    decreases |steps|
  {
    if steps != [] {
      UntouchedStep(setup, s, steps[0]);
      UntouchedRun(setup, Apply(setup, s, steps[0]), steps[1..]);
    }
  }

  lemma {:induction false} NotStarted(setup: Setup, s: State)
    requires ValidSetup(setup) && Reachable(setup, s) && !s.started
    ensures Untouched(s) && s.pending == |s.accepted|
    ensures forall id | id in s.records :: s.records[id].phase.Queued?
    ensures AllTerminal(s) <==> s.accepted == []
  {
    ReachableInv(setup, s);
    var steps :| CanRun(setup, Initial, steps) && RunFrom(setup, Initial, steps) == s;
    UntouchedRun(setup, Initial, steps);
    forall id | id in s.records ensures s.records[id].phase.Queued? {
      var i := IndexOf(s.accepted, id);
      assert QueuedIff(s, i);
    }
    if s.accepted != [] { assert QueuedIff(s, 0); }
    SumZero(s.workers, Busy);
  }

  /** When the workers come to rest every job has ended, Wait returns, and after Stop every worker has returned (so
      Stop returns too), provided the scheduler was started. If it was not, every accepted job still waits. */
  lemma {:induction false} RestMeansDone(setup: Setup, s: State)
    requires ValidSetup(setup) && Reachable(setup, s) && Halted(setup, s)
    ensures AllTerminal(s) <==> s.started || s.accepted == []
    ensures s.started ==> s.queue == [] && s.pending == 0
    ensures s.started ==> forall w | 0 <= w < |s.workers| :: s.workers[w] == if s.stopped then Exited else Waiting
    ensures !s.started ==> s.pending == |s.accepted| && forall id | id in s.records :: s.records[id].phase.Queued?
  {
    ReachableInv(setup, s);
    if s.started {
      StartedRest(setup, s);
    } else {
      NotStarted(setup, s);
    }
  }

  // ---------------------------------------------------------------- termination

  function Weight(x: Worker): nat {
    if x.Awake? then 1 else if x.Finishing? then 2 else 0
  }

  function ExecutingCount(x: Worker): nat {
    if x.Executing? then 1 else 0
  }

  /** Start and Stop each act at most once. */
  function Switches(s: State): nat {
    (if s.started || s.stopped then 0 else 1) + (if s.stopped then 0 else 1)
  }

  function Major(s: State): nat {
    2 * |s.queue| + Sum(s.workers, ExecutingCount) + Switches(s)
  }

  /** 2 * queued + running dominates; below it, how far the workers are from resting. */
  function Rank(setup: Setup, s: State): nat {
    Major(s) * (2 * setup.workerCount + 1) + Sum(s.workers, Weight)
  }

  lemma {:induction false} WakeWeights(workers: seq<Worker>)
    ensures Sum(WakeAll(workers), Weight) <= Sum(workers, Weight) + |workers|
    ensures Sum(WakeAll(workers), ExecutingCount) == Sum(workers, ExecutingCount)
  {
    SumBounded(WakeAll(workers), workers, Weight, Weight, 1);
    SumBounded(WakeAll(workers), workers, ExecutingCount, ExecutingCount, 0);
    SumBounded(workers, WakeAll(workers), ExecutingCount, ExecutingCount, 0);
  }

  lemma {:induction false} FreshWeights(workers: seq<Worker>)
    requires forall w | 0 <= w < |workers| :: workers[w].Awake?
    ensures Sum(workers, Weight) <= |workers| && Sum(workers, ExecutingCount) == 0
  {
    var nothing := (x: Worker) => 0;
    SumBounded(workers, workers, Weight, nothing, 1);
    SumZero(workers, nothing);
    SumZero(workers, ExecutingCount);
  }

  lemma {:induction false} Lower(a: nat, b: nat, m: nat, n: nat, unit: nat)
    requires (b < a && n < m + unit) || (b == a && n < m)
    ensures b * unit + n < a * unit + m
  {
    if b < a {
      assert a * unit == (b + 1) * unit + (a - b - 1) * unit;
      assert (a - b - 1) * unit >= 0;
      assert (b + 1) * unit == b * unit + unit;
    }
  }

  lemma {:induction false} RankLower(setup: Setup, s: State, s': State)
    requires || (Major(s') < Major(s) && Sum(s'.workers, Weight) <= Sum(s.workers, Weight) + 2 * setup.workerCount)
             || (Major(s') == Major(s) && Sum(s'.workers, Weight) < Sum(s.workers, Weight))
    ensures Rank(setup, s') < Rank(setup, s)
  {
    Lower(Major(s), Major(s'), Sum(s.workers, Weight), Sum(s'.workers, Weight), 2 * setup.workerCount + 1);
  }

  lemma {:induction false} OneWorkerChanges(workers: seq<Worker>, w: nat, x: Worker)
    requires w < |workers|
    ensures Sum(workers[w := x], Weight) == Sum(workers, Weight) - Weight(workers[w]) + Weight(x)
    ensures Sum(workers[w := x], ExecutingCount)
      == Sum(workers, ExecutingCount) - ExecutingCount(workers[w]) + ExecutingCount(x)
  {
    SumUpdate(workers, w, x, Weight);
    SumUpdate(workers, w, x, ExecutingCount);
  }

  /** Steps that take an entry off the queue, end an execution, or stop the scheduler. */
  lemma {:induction false} BroadcastLowersRank(setup: Setup, s: State, step: Step)
    requires setup.workerCount > 0 && |s.workers| == (if s.started then setup.workerCount else 0)
    requires Enabled(setup, s, step) && (step.Stop? || step.Block? || step.Refuse? || step.Finish?)
    ensures Rank(setup, Apply(setup, s, step)) < Rank(setup, s)
  {
    WakeWeights(s.workers);
    if step.Finish? {
      OneWorkerChanges(WakeAll(s.workers), step.w, Finishing);
    }
    RankLower(setup, s, Apply(setup, s, step));
  }

  lemma {:induction false} WorkerLowersRank(setup: Setup, s: State, step: Step)
    requires setup.workerCount > 0 && |s.workers| == (if s.started then setup.workerCount else 0)
    requires Enabled(setup, s, step) && (step.Dispatch? || step.Sleep? || step.Exit? || step.Done?)
    ensures Rank(setup, Apply(setup, s, step)) < Rank(setup, s)
  {
    match step {
      case Dispatch(w, k) => OneWorkerChanges(s.workers, w, Executing(s.queue[k]));
      case Sleep(w) => OneWorkerChanges(s.workers, w, Waiting);
      case Exit(w) => OneWorkerChanges(s.workers, w, Exited);
      case Done(w) => OneWorkerChanges(s.workers, w, Awake);
    }
    RankLower(setup, s, Apply(setup, s, step));
  }

  /** Every step but an accepted submission strictly lowers the rank. */
  lemma {:induction false} StepLowersRank(setup: Setup, s: State, step: Step)
    requires setup.workerCount > 0 && |s.workers| == (if s.started then setup.workerCount else 0)
    requires Enabled(setup, s, step) && !step.Submit?
    ensures Rank(setup, Apply(setup, s, step)) < Rank(setup, s)
  {
    if step.Start? {
      FreshWeights(Apply(setup, s, step).workers);
      RankLower(setup, s, Apply(setup, s, step));
    } else if step.Stop? || step.Block? || step.Refuse? || step.Finish? {
      BroadcastLowersRank(setup, s, step);
    } else {
      WorkerLowersRank(setup, s, step);
    }
  }

  lemma {:induction false} SubmitRaisesRank(setup: Setup, s: State, job: Job, profile: Profile, woken: Option<nat>)
    requires Enabled(setup, s, Submit(job, profile, woken))
    ensures Rank(setup, AfterSubmit(s, job, profile, woken)) <= Rank(setup, s) + 4 * setup.workerCount + 3
  {
    var s' := AfterSubmit(s, job, profile, woken);
    if woken.Some? { OneWorkerChanges(s.workers, woken.value, Awake); }
    var unit := 2 * setup.workerCount + 1;
    assert (Major(s) + 2) * unit == Major(s) * unit + 2 * unit;
  }

  /** What one step costs against the bound on run length. */
  lemma {:induction false} StepCost(setup: Setup, s: State, step: Step)
    requires Inv(setup, s) && Enabled(setup, s, step)
    ensures Rank(setup, Apply(setup, s, step)) + 1
      <= Rank(setup, s) + (if step.Submit? then 4 * setup.workerCount + 4 else 0)
  {
    match step
    case Submit(job, profile, woken) => SubmitRaisesRank(setup, s, job, profile, woken);
    case _ => StepLowersRank(setup, s, step);
  }

  function Submissions(steps: seq<Step>): nat {
    if steps == [] then 0 else (if steps[0].Submit? then 1 else 0) + Submissions(steps[1..])
  }

  lemma {:induction false} OneMoreUnit(n: nat, unit: nat)
    ensures (n + 1) * unit == n * unit + unit
    ensures (0 + n) * unit == n * unit
  {}

  lemma {:induction false} RunLength(setup: Setup, s: State, steps: seq<Step>)
    requires Inv(setup, s) && CanRun(setup, s, steps)
    ensures |steps| <= Rank(setup, s) + Submissions(steps) * (4 * setup.workerCount + 4)
    decreases |steps|
  {
    if steps != [] {
      var s' := Apply(setup, s, steps[0]);
      StepInv(setup, s, steps[0]);
      RunLength(setup, s', steps[1..]);
      StepCost(setup, s, steps[0]);
      OneMoreUnit(Submissions(steps[1..]), 4 * setup.workerCount + 4);
    }
  }

  /** A run with k accepted jobs takes at most (4w + 2) + k(4w + 4) steps, whatever the policy and
      the interleaving. */
  lemma {:induction false} RunsAreBounded(setup: Setup, steps: seq<Step>)
    requires ValidSetup(setup) && CanRun(setup, Initial, steps)
    ensures |steps| <= 4 * setup.workerCount + 2 + Submissions(steps) * (4 * setup.workerCount + 4)
  {
    InitialInv(setup);
    RunLength(setup, Initial, steps);
  }

  // ---------------------------------------------------------------- exactly when every job can end

  lemma {:induction false} OneMoreStep(setup: Setup, s: State, step: Step, rest: seq<Step>)
    requires Enabled(setup, s, step) && CanRun(setup, Apply(setup, s, step), rest)
    ensures CanRun(setup, s, [step] + rest)
    ensures RunFrom(setup, s, [step] + rest) == RunFrom(setup, Apply(setup, s, step), rest)
  {
    assert ([step] + rest)[1..] == rest;
  }

  /** The workers of a started scheduler come to rest when nothing more is submitted. */
  lemma {:induction false} RunToRest(setup: Setup, s: State) returns (steps: seq<Step>)
    requires Inv(setup, s) && s.started
    ensures CanRun(setup, s, steps) && AllTerminal(RunFrom(setup, s, steps))
    decreases Rank(setup, s)
  {
    if Halted(setup, s) {
      StartedRest(setup, s);
      steps := [];
    } else {
      var step: Step :| IsWorkerStep(step) && Enabled(setup, s, step);
      StepInv(setup, s, step);
      StepLowersRank(setup, s, step);
      var rest := RunToRest(setup, Apply(setup, s, step));
      OneMoreStep(setup, s, step, rest);
      steps := [step] + rest;
    }
  }

  lemma {:induction false} StoppedBeforeStart(setup: Setup, s: State, steps: seq<Step>)
    requires Untouched(s) && !s.started && s.stopped && CanRun(setup, s, steps)
    ensures steps == []
  {}

  ghost predicate CanEnd(setup: Setup, s: State) {
    exists steps :: CanRun(setup, s, steps) && AllTerminal(RunFrom(setup, s, steps))
  }

  /** All accepted jobs can still end exactly when the scheduler has been started, or not stopped, or has none. */
  lemma {:induction false} CanEndIff(setup: Setup, s: State)
    requires ValidSetup(setup) && Reachable(setup, s)
    ensures CanEnd(setup, s) <==> s.started || !s.stopped || s.accepted == []
  {
    ReachableInv(setup, s);
    if s.started {
      var steps := RunToRest(setup, s);
    } else {
      NotStarted(setup, s);
      if s.stopped {
        assert CanRun(setup, s, []) && RunFrom(setup, s, []) == s;
        forall steps | CanRun(setup, s, steps) ensures RunFrom(setup, s, steps) == s {
          StoppedBeforeStart(setup, s, steps);
        }
      } else {
        StepInv(setup, s, Start);
        var rest := RunToRest(setup, Apply(setup, s, Start));
        OneMoreStep(setup, s, Start, rest);
      }
    }
  }
}
