/** The queue, the records, the workers and the pending counter tell one story; what the policies
    are offered is in submission order. */
module SchedulerBookkeeping {
  import opened Text
  import opened Sums
  import opened SchedulerModel
  import opened SchedulerInvariants
  import opened SchedulerPreservation
  import opened SchedulerProgress
  import opened Scheduler
  import Policy
  import ContextStore

  // ---------------------------------------------------------------- counting

  ghost function InPhase(records: map<string, Record>, phase: Phase): set<string> {
    set id | id in records && records[id].phase == phase
  }

  ghost predicate DistinctEntries(entries: seq<QueuedJob>) {
    forall i, j | 0 <= i < j < |entries| :: entries[i].job.id != entries[j].job.id
  }

  lemma {:induction false} IdsCount(entries: seq<QueuedJob>)
    requires DistinctEntries(entries)
    ensures |Ids(entries)| == |entries|
  {
    if entries != [] {
      var n := |entries| - 1;
      IdsCount(entries[..n]);
      assert entries == entries[..n] + [entries[n]];
      assert Ids(entries) == Ids(entries[..n]) + {entries[n].job.id};
      assert entries[n].job.id !in Ids(entries[..n]);
    }
  }

  lemma {:induction false} QueueCount(s: State)
    requires History(s) && QueueShape(s)
    ensures |InPhase(s.records, Queued)| == |s.queue|
    ensures DistinctEntries(s.queue)
  {
    forall i, j | 0 <= i < j < |s.queue| ensures s.queue[i].job.id != s.queue[j].job.id {
      assert Placed(s, s.queue[i]) && Placed(s, s.queue[j]);
      DistinctIds(s, s.queue[i].sequence - 1, s.queue[j].sequence - 1);
    }
    IdsCount(s.queue);
    forall id ensures id in Ids(s.queue) <==> id in InPhase(s.records, Queued) {
      if id in Ids(s.queue) {
        var e :| e in s.queue && e.job.id == id;
        assert Placed(s, e) && QueuedIff(s, e.sequence - 1);
      }
      if id in InPhase(s.records, Queued) {
        var i := IndexOf(s.accepted, id);
        assert QueuedIff(s, i);
      }
    }
    assert Ids(s.queue) == InPhase(s.records, Queued);
  }

  ghost function ExecutingIds(workers: seq<Worker>): set<string> {
    set w | 0 <= w < |workers| && workers[w].Executing? :: workers[w].entry.job.id
  }

  /** The last worker's contribution to the executing IDs. */
  lemma {:induction false} ExecutingIdsLast(workers: seq<Worker>)
    requires workers != []
    ensures var last := workers[|workers| - 1];
      ExecutingIds(workers)
      == ExecutingIds(workers[..|workers| - 1]) + (if last.Executing? then {last.entry.job.id} else {})
  {
    var n := |workers| - 1;
    var rest, last := workers[..n], if workers[n].Executing? then {workers[n].entry.job.id} else {};
    forall x | x in ExecutingIds(workers) ensures x in ExecutingIds(rest) + last {
      var w :| 0 <= w < |workers| && workers[w].Executing? && workers[w].entry.job.id == x;
      if w < n { assert rest[w] == workers[w]; }
    }
    forall x | x in ExecutingIds(rest) ensures x in ExecutingIds(workers) {
      var w :| 0 <= w < |rest| && rest[w].Executing? && rest[w].entry.job.id == x;
      assert workers[w] == rest[w];
    }
  }

  ghost predicate DistinctExecuting(workers: seq<Worker>) {
    forall v, w | 0 <= v < w < |workers| && workers[v].Executing? && workers[w].Executing? ::
      workers[v].entry.job.id != workers[w].entry.job.id
  }

  lemma {:induction false} LastIsNew(workers: seq<Worker>)
    requires DistinctExecuting(workers) && workers != [] && workers[|workers| - 1].Executing?
    ensures workers[|workers| - 1].entry.job.id !in ExecutingIds(workers[..|workers| - 1])
  {}

  lemma {:induction false} ExecutingCountIs(workers: seq<Worker>)
    requires DistinctExecuting(workers)
    ensures |ExecutingIds(workers)| == Sum(workers, ExecutingCount)
  {
    if workers != [] {
      var n := |workers| - 1;
      var rest := workers[..n];
      ExecutingCountIs(rest);
      ExecutingIdsLast(workers);
      SumLast(workers);
      if workers[n].Executing? { LastIsNew(workers); }
    }
  }

  lemma {:induction false} SumLast(workers: seq<Worker>)
    requires workers != []
    ensures Sum(workers, ExecutingCount)
      == Sum(workers[..|workers| - 1], ExecutingCount) + ExecutingCount(workers[|workers| - 1])
  {
    var n := |workers| - 1;
    assert workers == workers[..n] + [workers[n]];
    SumAppend(workers[..n], [workers[n]], ExecutingCount);
  }

  lemma {:induction false} RunningCount(setup: Setup, s: State)
    requires History(s) && WorkerShape(setup, s)
    ensures |InPhase(s.records, Running)| == Sum(s.workers, ExecutingCount)
  {
    forall v, w | 0 <= v < w < |s.workers| && s.workers[v].Executing? && s.workers[w].Executing?
      ensures s.workers[v].entry.job.id != s.workers[w].entry.job.id
    {
      assert Executes(s, v) && Executes(s, w);
    }
    ExecutingCountIs(s.workers);
    forall id ensures id in ExecutingIds(s.workers) <==> id in InPhase(s.records, Running) {
      if id in ExecutingIds(s.workers) {
        var w :| 0 <= w < |s.workers| && s.workers[w].Executing? && s.workers[w].entry.job.id == id;
        assert Executes(s, w);
      }
      if id in InPhase(s.records, Running) {
        var i := IndexOf(s.accepted, id);
        assert Executed(s, i);
        assert s.workers[s.records[id].workerID - 1].entry.job.id == id;
      }
    }
    assert ExecutingIds(s.workers) == InPhase(s.records, Running);
  }

  function FinishingCount(x: Worker): nat {
    if x.Finishing? then 1 else 0
  }

  lemma {:induction false} BusySplits(workers: seq<Worker>)
    ensures Sum(workers, Busy) == Sum(workers, ExecutingCount) + Sum(workers, FinishingCount)
  {
    if workers != [] { BusySplits(workers[1..]); }
  }

  lemma {:induction false} ExecutingAtMost(workers: seq<Worker>)
    ensures Sum(workers, ExecutingCount) <= |workers|
  {
    if workers != [] { ExecutingAtMost(workers[1..]); }
  }

  lemma {:induction false} UnionSize<T>(a: set<T>, b: set<T>)
    requires a !! b
    ensures |a + b| == |a| + |b|
  {}

  lemma {:induction false} PhasesDisjoint(records: map<string, Record>, p: Phase, p': Phase)
    requires p != p'
    ensures InPhase(records, p) !! InPhase(records, p')
  {}

  lemma {:induction false} FiveSizes<T>(a: set<T>, b: set<T>, c: set<T>, d: set<T>, e: set<T>)
    requires a !! b && a !! c && a !! d && a !! e && b !! c && b !! d && b !! e && c !! d && c !! e && d !! e
    ensures |a + b + c + d + e| == |a| + |b| + |c| + |d| + |e|
  {
    UnionSize(a, b);
    UnionSize(a + b, c);
    UnionSize(a + b + c, d);
    UnionSize(a + b + c + d, e);
  }

  lemma {:induction false} PhasesCover(records: map<string, Record>)
    ensures records.Keys == InPhase(records, Queued) + InPhase(records, Running) + InPhase(records, Succeeded)
                            + InPhase(records, Failed) + InPhase(records, Blocked)
  {
    forall id | id in records ensures id in InPhase(records, records[id].phase) {}
  }

  lemma {:induction false} PhasesPartition(records: map<string, Record>)
    ensures |records| == |InPhase(records, Queued)| + |InPhase(records, Running)| + |InPhase(records, Succeeded)|
                         + |InPhase(records, Failed)| + |InPhase(records, Blocked)|
  {
    PhasesDisjoint(records, Queued, Running);
    PhasesDisjoint(records, Queued, Succeeded);
    PhasesDisjoint(records, Queued, Failed);
    PhasesDisjoint(records, Queued, Blocked);
    PhasesDisjoint(records, Running, Succeeded);
    PhasesDisjoint(records, Running, Failed);
    PhasesDisjoint(records, Running, Blocked);
    PhasesDisjoint(records, Succeeded, Failed);
    PhasesDisjoint(records, Succeeded, Blocked);
    PhasesDisjoint(records, Failed, Blocked);
    PhasesCover(records);
    FiveSizes(InPhase(records, Queued), InPhase(records, Running), InPhase(records, Succeeded),
              InPhase(records, Failed), InPhase(records, Blocked));
    assert |records| == |records.Keys|;
  }

  /** The queue holds exactly the QUEUED jobs, the executing workers exactly the RUNNING ones, and
      pending counts the unfinished jobs plus those whose worker has yet to call Done. */
  lemma {:induction false} BooksBalance(setup: Setup, s: State)
    requires ValidSetup(setup) && Reachable(setup, s)
    ensures |s.queue| == |InPhase(s.records, Queued)| <= setup.queueCapacity
    ensures |InPhase(s.records, Running)| <= setup.workerCount
    ensures s.pending ==
      |InPhase(s.records, Queued)| + |InPhase(s.records, Running)| + Sum(s.workers, FinishingCount)
    ensures DistinctEntries(s.queue)
    ensures forall i, j | 0 <= i < j < |s.queue| :: s.queue[i].sequence < s.queue[j].sequence
  {
    ReachableInv(setup, s);
    QueueCount(s);
    RunningCount(setup, s);
    BusySplits(s.workers);
    ExecutingAtMost(s.workers);
  }

  /** Wait returns (pending is zero) only when every accepted job has ended, and the counter never
      goes negative. */
  lemma {:induction false} WaitMeansDone(setup: Setup, s: State)
    requires ValidSetup(setup) && Reachable(setup, s)
    ensures s.pending >= 0
    ensures s.pending == 0 ==> AllTerminal(s)
  {
    BooksBalance(setup, s);
    if s.pending == 0 {
      forall id | id in s.records ensures Terminal(s.records[id]) {
        assert id !in InPhase(s.records, Queued) && id !in InPhase(s.records, Running);
      }
    }
  }

  // ---------------------------------------------------------------- what was submitted

  /** The jobs that a run's submissions hand in, numbered on from a given number. */
  function Requests(steps: seq<Step>, number: nat): seq<QueuedJob> {
    if steps == [] then []
    else if steps[0].Submit? then
      [QueuedJob(steps[0].job, steps[0].profile, number + 1)] + Requests(steps[1..], number + 1)
    else Requests(steps[1..], number)
  }

  lemma {:induction false} StepAccepts(setup: Setup, s: State, step: Step)
    requires Enabled(setup, s, step)
    ensures var s' := Apply(setup, s, step);
      if step.Submit? then
        s'.accepted == s.accepted + [QueuedJob(step.job, step.profile, s.sequence + 1)] && s'.sequence == s.sequence + 1
      else s'.accepted == s.accepted && s'.sequence == s.sequence
  {}

  /** The history of accepted jobs is what was submitted, each with the profile it came with, numbered in order. */
  lemma {:induction false} RunAccepts(setup: Setup, s: State, steps: seq<Step>)
    requires CanRun(setup, s, steps)
    ensures RunFrom(setup, s, steps).accepted == s.accepted + Requests(steps, s.sequence)
    ensures RunFrom(setup, s, steps).sequence == s.sequence + |Requests(steps, s.sequence)|
    decreases |steps|
  {
    if steps != [] {
      var s' := Apply(setup, s, steps[0]);
      StepAccepts(setup, s, steps[0]);
      RunAccepts(setup, s', steps[1..]);
    }
  }

  lemma {:induction false} QueuedIsPlaced(setup: Setup, s: State, e: QueuedJob)
    requires ValidSetup(setup) && Reachable(setup, s)
    requires e in s.queue || exists w | 0 <= w < |s.workers| :: s.workers[w] == Executing(e)
    ensures Placed(s, e)
  {
    ReachableInv(setup, s);
    if e in s.queue {
      var k :| 0 <= k < |s.queue| && s.queue[k] == e;
      assert Placed(s, s.queue[k]);
    } else {
      var w :| 0 <= w < |s.workers| && s.workers[w] == Executing(e);
      assert Executes(s, w);
    }
  }

  /** Whatever is queued at the end of a run, and whatever a worker executes, is one of the requests as submitted. */
  lemma {:induction false} QueuedAsSubmitted(setup: Setup, steps: seq<Step>, e: QueuedJob)
    requires ValidSetup(setup) && CanRun(setup, Initial, steps)
    requires var s := RunFrom(setup, Initial, steps);
      e in s.queue || exists w | 0 <= w < |s.workers| :: s.workers[w] == Executing(e)
    ensures e in Requests(steps, 0) && 1 <= e.sequence <= |Requests(steps, 0)| && Requests(steps, 0)[e.sequence - 1] == e
  {
    var s := RunFrom(setup, Initial, steps);
    RunAccepts(setup, Initial, steps);
    assert Reachable(setup, s);
    QueuedIsPlaced(setup, s, e);
    assert s.accepted == Requests(steps, 0);
  }

  // ---------------------------------------------------------------- what the policies see

  /** Candidates reach the policy in strictly increasing submission order, which is what the bounds
      on CAPS need; hence an invalid answer falls back to exactly the choice FIFO would make. */
  lemma {:induction false} OfferedInOrder(
    setup: Setup, s: State, ready: seq<nat>, warm: map<string, ContextStore.Entry>, candidates: seq<Policy.Candidate>)
    requires ValidSetup(setup) && Reachable(setup, s)
    requires ReadyIndexes(s.records, s.queue, ready) && Offered(s.queue, ready, warm, candidates)
    ensures forall i, j | 0 <= i < j < |candidates| :: candidates[i].sequence < candidates[j].sequence
    ensures forall decision: int | ready != [] && !(0 <= decision < |ready|) ::
      && Chosen(decision, |ready|) == 0
      && forall i | 0 < i < |ready| :: candidates[0].sequence < candidates[i].sequence
  {
    ReachableInv(setup, s);
  }

  /** An answer outside the list dispatches what FIFO would: the ready entry that was submitted first. */
  lemma {:induction false} FallbackIsFirst(
    setup: Setup, s: State, choose: Chooser, warm: map<string, ContextStore.Entry>, attempt: nat, k: nat, e: QueuedJob)
    requires ValidSetup(setup) && Reachable(setup, s) && PolicyPicks(s, choose, warm, attempt, k)
    requires forall cs: seq<Policy.Candidate> :: !(0 <= choose(attempt, cs) < |cs|)
    requires e in s.queue && IsReady(s.records, e)
    ensures k < |s.queue| && s.queue[k].sequence <= e.sequence
  {
    ReachableInv(setup, s);
    var ready: seq<nat>, candidates: seq<Policy.Candidate> :|
      && ReadyIndexes(s.records, s.queue, ready) && ready != []
      && Offered(s.queue, ready, warm, candidates)
      && k == ready[Chosen(choose(attempt, candidates), |ready|)];
    assert |candidates| == |ready| && ready[0] in ready;
    var j :| 0 <= j < |s.queue| && s.queue[j] == e;
    assert j in ready;
    var i :| 0 <= i < |ready| && ready[i] == j;
    assert i > 0 ==> ready[0] < ready[i];
  }

  /** The chooser is CAPS: at each attempt it reads a clock and a pressure sample and picks. */
  ghost predicate IsCaps(choose: Chooser, policy: Option<Policy.Weights>,
                         clock: nat -> int, pressure: nat -> Policy.Pressure) {
    forall attempt: nat, cs: seq<Policy.Candidate> | cs != [] ::
      choose(attempt, cs) == Policy.CapsPick(policy, clock(attempt), pressure(attempt), cs)
  }

  /** chosen is ready, within the tolerance of every ready entry, and strictly better than every earlier one. */
  ghost predicate NearBest(s: State, score: Policy.Candidate -> real, warm: map<string, ContextStore.Entry>,
                           chosen: QueuedJob) {
    && chosen in s.queue && IsReady(s.records, chosen)
    && forall e | e in s.queue && IsReady(s.records, e) ::
      Policy.NoWorse(score, CandidateOf(chosen, warm), CandidateOf(e, warm))
  }

  lemma {:induction false} ReadyNearBest(
    s: State, ready: seq<nat>, score: Policy.Candidate -> real, warm: map<string, ContextStore.Entry>,
    candidates: seq<Policy.Candidate>, p: nat)
    requires ReadyIndexes(s.records, s.queue, ready) && Offered(s.queue, ready, warm, candidates)
    requires p < |ready| && forall i | 0 <= i < |candidates| :: Policy.NoWorse(score, candidates[p], candidates[i])
    ensures ready[p] < |s.queue| && NearBest(s, score, warm, s.queue[ready[p]])
  {
    assert ready[p] in ready;
    forall e | e in s.queue && IsReady(s.records, e)
      ensures Policy.NoWorse(score, CandidateOf(s.queue[ready[p]], warm), CandidateOf(e, warm))
    {
      var j :| 0 <= j < |s.queue| && s.queue[j] == e;
      assert j in ready;
      var i :| 0 <= i < |ready| && ready[i] == j;
      assert Policy.NoWorse(score, candidates[p], candidates[i]);
    }
  }

  lemma {:induction false} CapsPicksNearBest(
    setup: Setup, s: State, choose: Chooser, warm: map<string, ContextStore.Entry>, attempt: nat, k: nat,
    policy: Option<Policy.Weights>, clock: nat -> int, pressure: nat -> Policy.Pressure)
    requires ValidSetup(setup) && Reachable(setup, s) && IsCaps(choose, policy, clock, pressure)
    requires PolicyPicks(s, choose, warm, attempt, k)
    ensures k < |s.queue|
    ensures NearBest(s, Policy.Scoring(policy, clock(attempt), pressure(attempt)), warm, s.queue[k])
  {
    var ready: seq<nat>, candidates: seq<Policy.Candidate> :|
      && ReadyIndexes(s.records, s.queue, ready) && ready != []
      && Offered(s.queue, ready, warm, candidates)
      && k == ready[Chosen(choose(attempt, candidates), |ready|)];
    OfferedInOrder(setup, s, ready, warm, candidates);
    var p := Policy.CapsPick(policy, clock(attempt), pressure(attempt), candidates);
    assert choose(attempt, candidates) == p;
    Policy.CapsPickNoWorse(policy, clock(attempt), pressure(attempt), candidates);
    ReadyNearBest(s, ready, Policy.Scoring(policy, clock(attempt), pressure(attempt)), warm, candidates, p);
  }

  /** The entry that take dispatches under CAPS: by the clock and the pressure of the round that chose it no ready entry scores better by
      more than the tolerance, and every ready entry submitted earlier scores strictly worse. */
  lemma {:induction false} CapsDispatchIsNearBest(
    setup: Setup, s: State, w: nat, choose: Chooser, warm: map<string, ContextStore.Entry>,
    steps: seq<Step>, taken: Taken,
    policy: Option<Policy.Weights>, clock: nat -> int, pressure: nat -> Policy.Pressure)
    requires ValidSetup(setup) && Reachable(setup, s) && IsCaps(choose, policy, clock, pressure)
    requires Takes(setup, s, w, choose, warm, steps, taken) && taken.Took?
    ensures var before, attempt := RunFrom(setup, s, steps[..|steps| - 1]), Refusals(steps[..|steps| - 1]);
      NearBest(before, Policy.Scoring(policy, clock(attempt), pressure(attempt)), warm, taken.entry)
  {
    var before := RunFrom(setup, s, steps[..|steps| - 1]);
    StaysReachable(setup, s, steps[..|steps| - 1]);
    CapsPicksNearBest(setup, before, choose, warm, Refusals(steps[..|steps| - 1]), steps[|steps| - 1].k,
                      policy, clock, pressure);
  }

  /** Every profile in the history of a run is one that Submit accepts. */
  lemma {:induction false} RunAdmissible(setup: Setup, s: State, steps: seq<Step>)
    requires CanRun(setup, s, steps) && forall e | e in s.accepted :: Admissible(e.profile)
    ensures forall e | e in RunFrom(setup, s, steps).accepted :: Admissible(e.profile)
    decreases |steps|
  {
    if steps != [] {
      RunAdmissible(setup, Apply(setup, s, steps[0]), steps[1..]);
    }
  }

  /** So the policy is offered what its bounds on ageing ask for, as long as the context sizes of the ready
      entries do not wrap. */
  lemma {:induction false} OfferedNormalized(
    setup: Setup, s: State, ready: seq<nat>, warm: map<string, ContextStore.Entry>, candidates: seq<Policy.Candidate>)
    requires ValidSetup(setup) && Reachable(setup, s)
    requires ReadyIndexes(s.records, s.queue, ready) && Offered(s.queue, ready, warm, candidates)
    requires forall i | 0 <= i < |ready| :: ContextStore.NoWrap(s.queue[ready[i]].profile.contexts)
    ensures Policy.Lineup(candidates)
  {
    OfferedInOrder(setup, s, ready, warm, candidates);
    forall i | 0 <= i < |candidates| ensures Policy.Offerable(candidates[i]) {
      QueuedNormalized(setup, s, ready[i], warm);
    }
  }

  lemma {:induction false} QueuedNormalized(setup: Setup, s: State, k: nat, warm: map<string, ContextStore.Entry>)
    requires ValidSetup(setup) && Reachable(setup, s) && k < |s.queue|
    requires ContextStore.NoWrap(s.queue[k].profile.contexts)
    ensures Policy.Offerable(CandidateOf(s.queue[k], warm))
  {
    var steps :| CanRun(setup, Initial, steps) && RunFrom(setup, Initial, steps) == s;
    RunAdmissible(setup, Initial, steps);
    ReachableInv(setup, s);
    assert Placed(s, s.queue[k]);
    assert s.queue[k] in s.accepted;
    ContextStore.AffinityInUnitInterval(warm, s.queue[k].profile.contexts);
  }

  ghost predicate NoReadyWraps(s: State) {
    forall e | e in s.queue && IsReady(s.records, e) :: ContextStore.NoWrap(e.profile.contexts)
  }

  /** If an earlier ready entry has its full age bonus, chosen has earned a bonus of its own, unless the pressure
      levels exceed 3 - affinityWeight. */
  ghost predicate RespectsAge(s: State, policy: Option<Policy.Weights>, now: int, pressure: Policy.Pressure,
                              warm: map<string, ContextStore.Entry>, chosen: QueuedJob) {
    forall e | e in s.queue && IsReady(s.records, e) && e.sequence < chosen.sequence ::
      Policy.Saturated(policy, now, CandidateOf(e, warm)) ==>
      Policy.EarnedItsTurn(policy, now, pressure, CandidateOf(chosen, warm))
  }

  lemma {:induction false} NearBestRespectsAge(
    setup: Setup, s: State, policy: Option<Policy.Weights>, now: int, pressure: Policy.Pressure,
    warm: map<string, ContextStore.Entry>, chosen: QueuedJob)
    requires ValidSetup(setup) && Reachable(setup, s) && NoReadyWraps(s)
    requires NearBest(s, Policy.Scoring(policy, now, pressure), warm, chosen)
    ensures RespectsAge(s, policy, now, pressure, warm, chosen)
  {
    var k :| 0 <= k < |s.queue| && s.queue[k] == chosen;
    QueuedNormalized(setup, s, k, warm);
    forall e | e in s.queue && IsReady(s.records, e) && e.sequence < chosen.sequence
               && Policy.Saturated(policy, now, CandidateOf(e, warm))
      ensures Policy.EarnedItsTurn(policy, now, pressure, CandidateOf(chosen, warm))
    {
      var i :| 0 <= i < |s.queue| && s.queue[i] == e;
      QueuedNormalized(setup, s, i, warm);
      Policy.NoWorseEarned(policy, now, pressure, CandidateOf(e, warm), CandidateOf(chosen, warm));
    }
  }

  /** The bound on overtaking, for what take dispatches under CAPS. */
  lemma {:induction false} CapsDispatchRespectsAge(
    setup: Setup, s: State, w: nat, choose: Chooser, warm: map<string, ContextStore.Entry>,
    steps: seq<Step>, taken: Taken,
    policy: Option<Policy.Weights>, clock: nat -> int, pressure: nat -> Policy.Pressure)
    requires ValidSetup(setup) && Reachable(setup, s) && IsCaps(choose, policy, clock, pressure)
    requires Takes(setup, s, w, choose, warm, steps, taken) && taken.Took?
    requires NoReadyWraps(RunFrom(setup, s, steps[..|steps| - 1]))
    ensures var before, attempt := RunFrom(setup, s, steps[..|steps| - 1]), Refusals(steps[..|steps| - 1]);
      RespectsAge(before, policy, clock(attempt), pressure(attempt), warm, taken.entry)
  {
    var before, attempt := RunFrom(setup, s, steps[..|steps| - 1]), Refusals(steps[..|steps| - 1]);
    CapsDispatchIsNearBest(setup, s, w, choose, warm, steps, taken, policy, clock, pressure);
    StaysReachable(setup, s, steps[..|steps| - 1]);
    NearBestRespectsAge(setup, before, policy, clock(attempt), pressure(attempt), warm, taken.entry);
  }

  // ---------------------------------------------------------------- Status

  datatype RuntimeStatus = RuntimeStatus(
    started: bool, stopped: bool, workerCount: nat, queueCapacity: nat, queueDepth: nat,
    totalAgents: nat, phaseCounts: map<Phase, nat>)

  /** Status ranges over the records in any order, bumping one counter per record. */
  method Status(scheduler: Scheduler) returns (status: RuntimeStatus)
    ensures status.started == scheduler.started && status.stopped == scheduler.stopped
    ensures status.workerCount == scheduler.workerCount && status.queueCapacity == scheduler.queueCapacity
    ensures status.queueDepth == |scheduler.queue| && status.totalAgents == |scheduler.records|
    ensures forall p: Phase ::
      (if p in status.phaseCounts then status.phaseCounts[p] else 0) == |InPhase(scheduler.records, p)|
  {
    var counts: map<Phase, nat> := map[];
    var records := scheduler.records;
    var unseen := records.Keys;
    ghost var seen: set<string> := {};
    while unseen != {}
      invariant seen !! unseen && seen + unseen == records.Keys
      invariant forall p: Phase ::
        (if p in counts then counts[p] else 0) == |SeenIn(records, seen, p)|
      decreases |unseen|
    {
      var id :| id in unseen;
      unseen := unseen - {id};
      var phase := records[id].phase;
      forall p: Phase
        ensures |SeenIn(records, seen + {id}, p)| == |SeenIn(records, seen, p)| + (if phase == p then 1 else 0)
      {
        CountOneMore(records, seen, id, p);
      }
      counts := counts[phase := (if phase in counts then counts[phase] else 0) + 1];
      seen := seen + {id};
    }
    forall p: Phase ensures SeenIn(records, seen, p) == InPhase(records, p) {}
    status := RuntimeStatus(
      scheduler.started, scheduler.stopped, scheduler.workerCount, scheduler.queueCapacity,
      |scheduler.queue|, |records|, counts);
  }

  ghost function SeenIn(records: map<string, Record>, seen: set<string>, p: Phase): set<string> {
    set id | id in seen && id in records && records[id].phase == p
  }

  lemma {:induction false} CountOneMore(records: map<string, Record>, seen: set<string>, id: string, p: Phase)
    requires id in records && id !in seen
    ensures |SeenIn(records, seen + {id}, p)|
      == |SeenIn(records, seen, p)| + (if records[id].phase == p then 1 else 0)
  {
    if records[id].phase == p {
      assert SeenIn(records, seen + {id}, p) == SeenIn(records, seen, p) + {id};
    } else {
      assert SeenIn(records, seen + {id}, p) == SeenIn(records, seen, p);
    }
  }

  /** The figures Status reports always add up. */
  lemma {:induction false} StatusAddsUp(setup: Setup, s: State)
    requires ValidSetup(setup) && Reachable(setup, s)
    ensures |s.records| == |s.queue| + |InPhase(s.records, Running)| + |InPhase(s.records, Succeeded)|
                           + |InPhase(s.records, Failed)| + |InPhase(s.records, Blocked)|
    ensures |s.records| == s.sequence
  {
    BooksBalance(setup, s);
    PhasesPartition(s.records);
    ReachableInv(setup, s);
    forall i, j | 0 <= i < j < |s.accepted| ensures s.accepted[i].job.id != s.accepted[j].job.id {
      DistinctIds(s, i, j);
    }
    IdsCount(s.accepted);
    assert |s.records| == |s.records.Keys|;
  }
}
