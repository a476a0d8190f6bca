/**
 The scheduler itself. Each method is one critical section of the Go code; its contract says which
 steps of the state machine it takes, so everything proved about runs holds of this class. The
 goroutines and the condition variable are the ghost field workers.
 */
module Scheduler {
  import opened Text
  import opened SchedulerModel
  import opened SchedulerInvariants
  import opened SchedulerPreservation
  import Policy
  import ContextStore
  import Dependencies

  datatype SubmitError =
    | AgentRequired
    | AgentIDRequired
    | TimeoutNotPositive
    | InvalidDemand
    | ContextsUnresolved
    | InvalidDependencies(error: Dependencies.DependencyError)
    | SchedulerStopped
    | DuplicateAgent
    | MissingDependency(id: string)
    | QueueFull

  /** What Submit is given: hasAgent is false for a nil agent, resolved is the answer of the context resolver. */
  datatype Request = Request(
    hasAgent: bool, agentID: string, timeout: int, demand: Policy.Demand,
    resolved: Option<seq<ContextStore.Ref>>, dependsOn: seq<string>)

  predicate Identified(request: Request) {
    request.hasAgent && request.agentID != "" && request.timeout > 0
  }

  datatype Taken = Took(entry: QueuedJob) | MustWait | NoMoreWork

  /** The policy in use, with the clock and the pressure sample of each attempt. */
  type Chooser = (nat, seq<Policy.Candidate>) -> int

  // ---------------------------------------------------------------- what take offers the policy

  predicate Ascending(ks: seq<nat>) {
    forall i, j | 0 <= i < j < |ks| :: ks[i] < ks[j]
  }

  ghost predicate ReadyIndexes(records: map<string, Record>, queue: seq<QueuedJob>, ready: seq<nat>) {
    && Ascending(ready)
    && forall k: nat :: k in ready <==> k < |queue| && IsReady(records, queue[k])
  }

  ghost function CandidateOf(e: QueuedJob, warm: map<string, ContextStore.Entry>): Policy.Candidate {
    Policy.Candidate(
      e.job.id, e.profile.submittedAt, e.sequence, e.profile.demand,
      ContextStore.Requested(e.profile.contexts),
      ContextStore.Reusable(warm, e.profile.contexts),
      ContextStore.AffinityOf(warm, e.profile.contexts))
  }

  ghost function Describing(warm: map<string, ContextStore.Entry>): QueuedJob -> Policy.Candidate {
    e => CandidateOf(e, warm)
  }

  /** The candidates describe the entries at the ready indexes, in order. */
  ghost predicate Lists(queue: seq<QueuedJob>, ready: seq<nat>, describe: QueuedJob -> Policy.Candidate,
                        candidates: seq<Policy.Candidate>) {
    && |candidates| == |ready|
    && forall i | 0 <= i < |ready| :: ready[i] < |queue| && candidates[i] == describe(queue[ready[i]])
  }

  ghost predicate Offered(queue: seq<QueuedJob>, ready: seq<nat>, warm: map<string, ContextStore.Entry>,
                          candidates: seq<Policy.Candidate>) {
    Lists(queue, ready, Describing(warm), candidates)
  }

  lemma {:induction false} ListsNext(queue: seq<QueuedJob>, ready: seq<nat>, describe: QueuedJob -> Policy.Candidate,
                                     candidates: seq<Policy.Candidate>, i: nat, candidate: Policy.Candidate)
    requires i < |ready| && ready[i] < |queue| && Lists(queue, ready[..i], describe, candidates)
    requires candidate == describe(queue[ready[i]])
    ensures Lists(queue, ready[..i + 1], describe, candidates + [candidate])
  {
    assert ready[..i + 1] == ready[..i] + [ready[i]];
  }

  /** An index outside the list is answered by the first candidate. */
  function Chosen(decision: int, count: nat): (i: nat)
    requires count > 0
    ensures i < count
  {
    if decision < 0 || decision >= count then 0 else decision
  }

  /** Entry k is what the policy picks at this attempt among exactly the ready entries, offered in queue order. */
  ghost predicate PolicyPicks(s: State, choose: Chooser, warm: map<string, ContextStore.Entry>,
                              attempt: nat, k: nat) {
    exists ready: seq<nat>, candidates: seq<Policy.Candidate> ::
      && ReadyIndexes(s.records, s.queue, ready) && ready != []
      && Offered(s.queue, ready, warm, candidates)
      && k == ready[Chosen(choose(attempt, candidates), |ready|)]
  }

  /** How many choices had to be refused: the number of the attempt that comes next. */
  ghost function Refusals(steps: seq<Step>): nat {
    if steps == [] then 0
    else Refusals(steps[..|steps| - 1]) + if steps[|steps| - 1].Refuse? then 1 else 0
  }

  ghost predicate TakingStep(s: State, w: nat, choose: Chooser, warm: map<string, ContextStore.Entry>,
                             attempt: nat, step: Step) {
    step == Block(w) || (step.Refuse? && step.w == w && PolicyPicks(s, choose, warm, attempt, step.k))
  }

  ghost predicate TakenAt(setup: Setup, s: State, w: nat, choose: Chooser, warm: map<string, ContextStore.Entry>,
                          steps: seq<Step>, i: nat)
    requires i < |steps|
  {
    && CanRun(setup, s, steps[..i])
    && TakingStep(RunFrom(setup, s, steps[..i]), w, choose, warm, Refusals(steps[..i]), steps[i])
  }

  /** The loop of take before its last round: blocked entries, and chosen entries that had to be
      refused because their dependency outputs cannot be encoded. */
  ghost predicate Taking(setup: Setup, s: State, w: nat, choose: Chooser, warm: map<string, ContextStore.Entry>,
                         steps: seq<Step>) {
    CanRun(setup, s, steps) && forall i | 0 <= i < |steps| :: TakenAt(setup, s, w, choose, warm, steps, i)
  }

  /** How take ends: with the policy's choice dispatched, waiting, or returning for good. */
  ghost predicate Ends(s: State, w: nat, choose: Chooser, warm: map<string, ContextStore.Entry>,
                       attempt: nat, last: Step, taken: Taken) {
    match last
    case Dispatch(v, k) =>
      v == w && PolicyPicks(s, choose, warm, attempt, k) && k < |s.queue| && taken == Took(s.queue[k])
    case Sleep(v) => v == w && taken == MustWait
    case Exit(v) => v == w && taken == NoMoreWork
    case _ => false
  }

  /** One stretch of take by worker w under the lock. */
  ghost predicate Takes(setup: Setup, s: State, w: nat, choose: Chooser, warm: map<string, ContextStore.Entry>,
                        steps: seq<Step>, taken: Taken) {
    && steps != []
    && var n := |steps| - 1;
    && Taking(setup, s, w, choose, warm, steps[..n])
    && Enabled(setup, RunFrom(setup, s, steps[..n]), steps[n])
    && Ends(RunFrom(setup, s, steps[..n]), w, choose, warm, Refusals(steps[..n]), steps[n], taken)
  }

  lemma {:induction false} OneStep(setup: Setup, s: State, step: Step)
    requires Enabled(setup, s, step)
    ensures CanRun(setup, s, [step]) && RunFrom(setup, s, [step]) == Apply(setup, s, step)
  {
    var s' := Apply(setup, s, step);
    assert [step][1..] == [] && CanRun(setup, s', []) && RunFrom(setup, s', []) == s';
  }

  /** Worker w has taken these steps of take since it got the lock in state s, and is now in s'. */
  ghost predicate Underway(setup: Setup, s: State, w: nat, choose: Chooser, warm: map<string, ContextStore.Entry>,
                           steps: seq<Step>, s': State) {
    Taking(setup, s, w, choose, warm, steps) && s' == RunFrom(setup, s, steps)
  }

  lemma {:induction false} TakenStays(
    setup: Setup, s: State, w: nat, choose: Chooser, warm: map<string, ContextStore.Entry>,
    steps: seq<Step>, more: seq<Step>, i: nat)
    requires i < |steps| && TakenAt(setup, s, w, choose, warm, steps, i)
    ensures TakenAt(setup, s, w, choose, warm, steps + more, i)
  {
    assert (steps + more)[..i] == steps[..i];
  }

  lemma {:induction false} TakingMore(
    setup: Setup, s: State, w: nat, choose: Chooser, warm: map<string, ContextStore.Entry>,
    steps: seq<Step>, s': State, step: Step)
    requires Underway(setup, s, w, choose, warm, steps, s')
    requires Enabled(setup, s', step) && TakingStep(s', w, choose, warm, Refusals(steps), step)
    ensures Underway(setup, s, w, choose, warm, steps + [step], Apply(setup, s', step))
    ensures Refusals(steps + [step]) == Refusals(steps) + if step.Refuse? then 1 else 0
  {
    OneStep(setup, s', step);
    RunConcat(setup, s, steps, [step]);
    assert (steps + [step])[..|steps|] == steps;
    forall i | 0 <= i < |steps + [step]| ensures TakenAt(setup, s, w, choose, warm, steps + [step], i) {
      if i < |steps| {
        TakenStays(setup, s, w, choose, warm, steps, [step], i);
      }
    }
  }

  ghost predicate OnlyBlocks(steps: seq<Step>, w: nat) {
    forall i | 0 <= i < |steps| :: steps[i] == Block(w)
  }

  /** s' is where w's blocking has led. */
  ghost predicate BlocksLead(setup: Setup, s: State, w: nat, steps: seq<Step>, s': State) {
    OnlyBlocks(steps, w) && CanRun(setup, s, steps) && s' == RunFrom(setup, s, steps)
  }

  lemma {:induction false} BlockedMore(setup: Setup, s: State, w: nat, steps: seq<Step>, s': State)
    requires BlocksLead(setup, s, w, steps, s') && Enabled(setup, s', Block(w))
    ensures BlocksLead(setup, s, w, steps + [Block(w)], Apply(setup, s', Block(w)))
  {
    OneStep(setup, s', Block(w));
    RunConcat(setup, s, steps, [Block(w)]);
  }

  /** A round of take that only blocks entries. */
  lemma {:induction false} BlockedRound(
    setup: Setup, s: State, w: nat, choose: Chooser, warm: map<string, ContextStore.Entry>,
    steps: seq<Step>, s': State, blocks: seq<Step>, s'': State)
    requires Underway(setup, s, w, choose, warm, steps, s') && BlocksLead(setup, s', w, blocks, s'')
    ensures Underway(setup, s, w, choose, warm, steps + blocks, s'')
    ensures Refusals(steps + blocks) == Refusals(steps)
    decreases |blocks|
  {
    if blocks == [] {
      assert steps + blocks == steps;
    } else {
      var between := FirstBlock(setup, s', w, blocks, s'');
      TakingMore(setup, s, w, choose, warm, steps, s', Block(w));
      BlockedRound(setup, s, w, choose, warm, steps + [Block(w)], between, blocks[1..], s'');
      assert steps + blocks == steps + [Block(w)] + blocks[1..];
    }
  }

  lemma {:induction false} FirstBlock(setup: Setup, s: State, w: nat, blocks: seq<Step>, s': State) returns (between: State)
    requires BlocksLead(setup, s, w, blocks, s') && blocks != []
    ensures blocks[0] == Block(w) && Enabled(setup, s, Block(w)) && between == Apply(setup, s, Block(w))
    ensures BlocksLead(setup, between, w, blocks[1..], s')
  {
    between := Apply(setup, s, Block(w));
  }

  /** A round of take whose choice had to be refused. */
  lemma {:induction false} RefusedRound(
    setup: Setup, s: State, w: nat, choose: Chooser, warm: map<string, ContextStore.Entry>,
    steps: seq<Step>, s': State, k: nat)
    requires Underway(setup, s, w, choose, warm, steps, s')
    requires Enabled(setup, s', Refuse(w, k)) && PolicyPicks(s', choose, warm, Refusals(steps), k)
    ensures Underway(setup, s, w, choose, warm, steps + [Refuse(w, k)], Apply(setup, s', Refuse(w, k)))
    ensures Refusals(steps + [Refuse(w, k)]) == Refusals(steps) + 1
  {
    TakingMore(setup, s, w, choose, warm, steps, s', Refuse(w, k));
  }

  lemma {:induction false} TakingDone(
    setup: Setup, s: State, w: nat, choose: Chooser, warm: map<string, ContextStore.Entry>,
    steps: seq<Step>, s': State, last: Step, taken: Taken)
    requires Underway(setup, s, w, choose, warm, steps, s')
    requires Enabled(setup, s', last) && Ends(s', w, choose, warm, Refusals(steps), last, taken)
    ensures Takes(setup, s, w, choose, warm, steps + [last], taken)
    ensures CanRun(setup, s, steps + [last]) && RunFrom(setup, s, steps + [last]) == Apply(setup, s', last)
  {
    OneStep(setup, s', last);
    RunConcat(setup, s, steps, [last]);
    assert (steps + [last])[..|steps|] == steps;
  }

  lemma {:induction false} NoneReady(records: map<string, Record>, queue: seq<QueuedJob>, ready: seq<nat>)
    requires ReadyIndexes(records, queue, ready) && ready == []
    ensures NothingReady(records, queue)
  {
    forall i | 0 <= i < |queue| ensures !IsReady(records, queue[i]) { assert i !in ready; }
  }

  lemma {:induction false} FirstStuckIs(records: map<string, Record>, queue: seq<QueuedJob>, k: nat)
    requires k <= |queue| && (k < |queue| ==> IsStuck(records, queue[k]))
    requires forall i | 0 <= i < k :: !IsStuck(records, queue[i])
    ensures FirstStuck(records, queue) == k
  {}

  lemma {:induction false} StaysReachable(setup: Setup, s: State, steps: seq<Step>)
    requires Reachable(setup, s) && CanRun(setup, s, steps)
    ensures Reachable(setup, RunFrom(setup, s, steps))
  {
    var before :| CanRun(setup, Initial, before) && RunFrom(setup, Initial, before) == s;
    RunConcat(setup, Initial, before, steps);
  }

  lemma {:induction false} StepReachable(setup: Setup, s: State, step: Step)
    requires Reachable(setup, s) && Enabled(setup, s, step)
    ensures Reachable(setup, Apply(setup, s, step))
  {
    OneStep(setup, s, step);
    StaysReachable(setup, s, [step]);
  }

  lemma {:induction false} InitialReachable(setup: Setup)
    ensures Reachable(setup, Initial)
  {
    assert CanRun(setup, Initial, []) && RunFrom(setup, Initial, []) == Initial;
  }

  /** The verdict of the gate when the scan has come as far as i and collected outputs. */
  ghost function Resumed(records: map<string, Record>, deps: seq<string>, i: nat,
                         outputs: map<string, HandedOutput>): Gate
    requires i <= |deps|
  {
    var rest := GateOf(records, deps[i..]);
    if rest.Ready? then Ready(rest.outputs + outputs) else rest
  }

  lemma {:induction false} GateResumes(records: map<string, Record>, deps: seq<string>, i: nat,
                                       outputs: map<string, HandedOutput>)
    requires i < |deps|
    requires deps[i] in outputs && deps[i] in records ==> outputs[deps[i]] == Exported(records[deps[i]])
    ensures var d := deps[i];
      if d !in records then Resumed(records, deps, i, outputs) == Stuck(UnknownDependency(d))
      else if Good(records[d]) then
        Resumed(records, deps, i, outputs) == Resumed(records, deps, i + 1, outputs[d := Exported(records[d])])
      else if Terminal(records[d]) then Resumed(records, deps, i, outputs) == Stuck(StuckReason(d, records[d]))
      else Resumed(records, deps, i, outputs) == Undecided
  {
    assert deps[i..][0] == deps[i] && deps[i..][1..] == deps[i + 1..];
    var rest := GateOf(records, deps[i + 1..]);
    if rest.Ready? && deps[i] in records && Good(records[deps[i]]) {
      MovedOver(rest.outputs, outputs, deps[i], Exported(records[deps[i]]));
    }
  }

  lemma {:induction false} MovedOver<K, V>(a: map<K, V>, b: map<K, V>, k: K, v: V)
    requires k in b ==> b[k] == v
    ensures a[k := v] + b == a + b[k := v]
  {}

  class Scheduler {
    const workerCount: nat
    const queueCapacity: nat
    const encodable: map<string, HandedOutput> -> bool
    ghost const setup: Setup

    var queue: seq<QueuedJob>
    var records: map<string, Record>
    var sequence: nat
    var started: bool
    var stopped: bool
    var pending: int
    var log: seq<Event>
    ghost var workers: seq<Worker>
    ghost var accepted: seq<QueuedJob>

    ghost function Abs(): State
      reads this
    {
      State(queue, records, sequence, started, stopped, pending, workers, log, accepted)
    }

    /** The state of the scheduler is always one that some run of the state machine reaches. */
    ghost predicate Valid()
      reads this
    {
      && ValidSetup(setup)
      && setup.workerCount == workerCount && setup.queueCapacity == queueCapacity
      && setup.encodable == encodable
      && Reachable(setup, Abs())
    }

    constructor (workerCount: nat, queueCapacity: nat, encodable: map<string, HandedOutput> -> bool,
                 ghost run: string -> Report, ghost verify: string -> Verdict)
      requires workerCount > 0 && queueCapacity > 0
      ensures Valid() && Abs() == Initial
      ensures setup == Setup(workerCount, queueCapacity, run, verify, encodable)
    {
      this.workerCount := workerCount;
      this.queueCapacity := queueCapacity;
      this.encodable := encodable;
      setup := Setup(workerCount, queueCapacity, run, verify, encodable);
      queue, records, sequence, started, stopped, pending := [], map[], 0, false, false, 0;
      log, workers, accepted := [], [], [];
      new;
      InitialReachable(setup);
    }

    // -------------------------------------------------------------- Start, Stop

    method StartWorkers()
      requires Valid()
      modifies this
      ensures Valid()
      ensures if old(Enabled(setup, Abs(), Start)) then Abs() == old(Apply(setup, Abs(), Start))
              else Abs() == old(Abs())
    {
      if started || stopped { return; }
      StepReachable(setup, Abs(), Start);
      started := true;
      workers := seq(workerCount, _ => Awake);
    }

    method StopWorkers()
      requires Valid()
      modifies this
      ensures Valid()
      ensures if old(Enabled(setup, Abs(), Stop)) then Abs() == old(Apply(setup, Abs(), Stop))
              else Abs() == old(Abs())
    {
      if stopped { return; }
      StepReachable(setup, Abs(), Stop);
      stopped := true;
      workers := WakeAll(workers);
    }

    // -------------------------------------------------------------- Submit

    /** The checks before the lock is taken: ID, timeout, demand, contexts, dependency names. */
    method Prepare(request: Request) returns (result: Result<(seq<string>, Policy.Demand), SubmitError>)
      ensures result == Err(AgentRequired) <==> !request.hasAgent
      ensures result == Err(AgentIDRequired) <==> request.hasAgent && request.agentID == ""
      ensures result == Err(TimeoutNotPositive) <==>
        request.hasAgent && request.agentID != "" && request.timeout <= 0
      ensures result.Ok? ==>
        && request.hasAgent && request.timeout > 0 && request.resolved.Some?
        && Dependencies.Normalized(request.dependsOn, result.value.0)
        && result.value.1 == (
          if request.demand == Policy.Demand(0.0, 0.0, 0.0) then Policy.Demand(0.5, 0.5, 0.5) else request.demand)
        && result.value.1.Valid()
      ensures result == Err(InvalidDemand) <==>
        && request.hasAgent && request.agentID != "" && request.timeout > 0
        && var d := request.demand;
        !(0.0 <= d.cpu <= 1.0 && 0.0 <= d.memory <= 1.0 && 0.0 <= d.io <= 1.0)
      ensures result == Err(ContextsUnresolved) <==>
        Identified(request) && request.demand.Valid() && request.resolved.None?
      ensures result.Err? && result.error.InvalidDependencies? <==>
        && Identified(request) && request.demand.Valid() && request.resolved.Some?
        && Dependencies.HasFault(request.agentID, request.dependsOn)
      ensures result.Err? && result.error.InvalidDependencies? ==>
        exists i :: Dependencies.FirstFault(request.agentID, request.dependsOn, i, result.error.error)
      ensures result.Err? ==>
        && !result.error.SchedulerStopped? && !result.error.DuplicateAgent?
        && !result.error.MissingDependency? && !result.error.QueueFull?
    {
      if !request.hasAgent { return Err(AgentRequired); }
      if request.agentID == "" { return Err(AgentIDRequired); }
      if request.timeout <= 0 { return Err(TimeoutNotPositive); }
      var demand := if request.demand.IsZero() then Policy.BALANCED else request.demand;
      if !demand.Valid() { return Err(InvalidDemand); }
      if request.resolved.None? { return Err(ContextsUnresolved); }
      var normalized := Dependencies.Normalize(request.agentID, request.dependsOn);
      if normalized.Err? { return Err(InvalidDependencies(normalized.error)); }
      result := Ok((normalized.value, demand));
    }

    /** The checks under the lock, in their order. */
    method Admit(job: Job) returns (refusal: Option<SubmitError>)
      requires setup.queueCapacity == queueCapacity
      ensures refusal.None? <==> Acceptable(setup, Abs(), job)
      ensures refusal == Some(SchedulerStopped) <==> stopped
      ensures refusal == Some(DuplicateAgent) <==> !stopped && job.id in records
      ensures refusal.Some? && refusal.value.MissingDependency? ==>
        refusal.value.id in job.dependsOn && refusal.value.id !in records
      ensures refusal == Some(QueueFull) ==>
        |queue| >= queueCapacity && forall d | d in job.dependsOn :: d in records
      ensures refusal.Some? ==>
        refusal.value in {SchedulerStopped, DuplicateAgent, QueueFull} || refusal.value.MissingDependency?
    {
      if stopped { return Some(SchedulerStopped); }
      if job.id in records { return Some(DuplicateAgent); }
      for i := 0 to |job.dependsOn|
        invariant forall j | 0 <= j < i :: job.dependsOn[j] in records
      {
        if job.dependsOn[i] !in records { return Some(MissingDependency(job.dependsOn[i])); }
      }
      if |queue| >= queueCapacity { return Some(QueueFull); }
      refusal := None;
    }

    /** The end of Submit, under the lock. */
    method Enqueue(job: Job, profile: Profile, ghost woken: Option<nat>)
      requires woken.Some? ==> woken.value < |workers|
      modifies this
      ensures Abs() == old(AfterSubmit(Abs(), job, profile, woken))
    {
      sequence := sequence + 1;
      var entry := QueuedJob(job, profile, sequence);
      records := records[job.id := QueuedRecord(job)];
      pending := pending + 1;
      queue := queue + [entry];
      accepted := accepted + [entry];
      if woken.Some? { workers := workers[woken.value := Awake]; }
      log := log + [Event(AgentSubmitted, job.id)];
    }

    /** woken is the goroutine that cond.Signal happens to pick. Either nothing changes, or exactly
        the submission step of the trimmed, sorted, repeat-free request is taken. */
    method SubmitJob(request: Request, now: int, ghost woken: Option<nat>)
      returns (result: Result<(), SubmitError>, ghost deps: seq<string>, ghost demand: Policy.Demand)
      requires Valid() && Signals(workers, woken)
      modifies this
      ensures Valid()
      ensures result.Err? ==> Abs() == old(Abs())
      ensures result.Ok? ==>
        && Identified(request) && request.resolved.Some?
        && Dependencies.Normalized(request.dependsOn, deps)
        && demand == (if request.demand.IsZero() then Policy.BALANCED else request.demand) && demand.Valid()
        && var step := Submit(Job(request.agentID, deps), Profile(now, demand, request.resolved.value), woken);
           old(Enabled(setup, Abs(), step)) && Abs() == old(Apply(setup, Abs(), step))
      ensures result.Ok? ==>
        && sequence == old(sequence) + 1 && pending == old(pending) + 1
        && queue == old(queue)
          + [QueuedJob(Job(request.agentID, deps), Profile(now, demand, request.resolved.value), old(sequence) + 1)]
        && records.Keys == old(records).Keys + {request.agentID}
        && records[request.agentID].phase.Queued? && records[request.agentID].dependsOn == deps
        && log == old(log) + [Event(AgentSubmitted, request.agentID)]
      ensures result == Err(AgentRequired) <==> !request.hasAgent
      ensures result == Err(AgentIDRequired) <==> request.hasAgent && request.agentID == ""
      ensures result.Ok? <==>
        && Identified(request) && request.demand.Valid() && request.resolved.Some?
        && !Dependencies.HasFault(request.agentID, request.dependsOn)
        && !old(stopped) && request.agentID !in old(records) && |old(queue)| < queueCapacity
        && forall i | 0 <= i < |request.dependsOn| :: Trim(request.dependsOn[i]) in old(records)
      ensures result == Err(SchedulerStopped) ==> old(stopped)
      ensures result == Err(DuplicateAgent) ==> !old(stopped) && request.agentID in old(records)
      ensures result == Err(QueueFull) ==> |old(queue)| >= queueCapacity
      ensures result.Err? && result.error.MissingDependency? ==>
        Dependencies.Mentions(request.dependsOn, result.error.id) && result.error.id !in old(records)
    {
      var prepared := Prepare(request);
      deps, demand := [], Policy.BALANCED;
      if prepared.Err? { return Err(prepared.error), deps, demand; }
      deps, demand := prepared.value.0, prepared.value.1;
      var job := Job(request.agentID, prepared.value.0);
      var refusal := Admit(job);
      if refusal.Some? { return Err(refusal.value), deps, demand; }
      var profile := Profile(now, prepared.value.1, request.resolved.value);
      assert Admissible(profile);
      StepReachable(setup, Abs(), Submit(job, profile, woken));
      Enqueue(job, profile, woken);
      result := Ok(());
    }

    // -------------------------------------------------------------- the dependency gate

    method DependencyStatus(entry: QueuedJob) returns (gate: Gate)
      ensures gate == GateOf(records, entry.job.dependsOn)
    {
      var deps := entry.job.dependsOn;
      var outputs: map<string, HandedOutput> := map[];
      for i := 0 to |deps|
        invariant forall d | d in outputs :: d in records && outputs[d] == Exported(records[d])
        invariant GateOf(records, deps) == Resumed(records, deps, i, outputs)
      {
        var d := deps[i];
        GateResumes(records, deps, i, outputs);
        if d !in records { return Stuck(UnknownDependency(d)); }
        var r := records[d];
        if r.phase.Failed? { return Stuck(DependencyFailed(d)); }
        if r.phase.Blocked? { return Stuck(DependencyBlocked(d)); }
        if r.phase.Queued? || r.phase.Running? { return Undecided; }
        if !r.output.committed { return Stuck(NoCommittedOutput(d)); }
        if !r.output.verified { return Stuck(NotVerified(d)); }
        outputs := outputs[d := Exported(r)];
      }
      gate := Ready(outputs);
    }

    method BlockEntry(index: nat, reason: BlockReason)
      requires index < |queue| && queue[index].job.id in records
      requires records[queue[index].job.id] == QueuedRecord(queue[index].job)
      modifies this
      ensures Abs() == old(AfterBlock(Abs(), index, reason))
    {
      var entry := queue[index];
      queue := queue[..index] + queue[index + 1..];
      var r := records[entry.job.id];
      r := r.(phase := Blocked, cause := GateClosed(reason));
      records := records[entry.job.id := r];
      log := log + [Event(AgentBlocked, entry.job.id)];
      pending := pending - 1;
      workers := WakeAll(workers);
    }

    lemma {:induction false} QueuedEntries()
      requires Valid()
      ensures forall k | 0 <= k < |queue| ::
        queue[k].job.id in records && records[queue[k].job.id] == QueuedRecord(queue[k].job)
    {
      var s := Abs();
      ReachableInv(setup, s);
      forall k | 0 <= k < |queue| ensures queue[k].job.id in records && records[queue[k].job.id] == QueuedRecord(queue[k].job) {
        assert Placed(s, s.queue[k]) && s.queue[k] in s.queue;
        assert QueuedIff(s, s.queue[k].sequence - 1) && ExplainedAt(setup, s, s.queue[k].sequence - 1);
      }
    }

    /** Removes one permanently blocked job, if there is one: the first in the queue. */
    method BlockUnrunnable(ghost w: nat) returns (blocked: bool)
      requires Valid() && Is(workers, w, Awake)
      modifies this
      ensures Valid()
      ensures blocked <==> old(Enabled(setup, Abs(), Block(w)))
      ensures blocked ==> Abs() == old(Apply(setup, Abs(), Block(w)))
      ensures !blocked ==> Abs() == old(Abs()) && NothingStuck(records, queue)
    {
      QueuedEntries();
      for index := 0 to |queue|
        invariant Abs() == old(Abs())
        invariant forall i | 0 <= i < index :: !IsStuck(records, queue[i])
      {
        var gate := DependencyStatus(queue[index]);
        if gate.Stuck? {
          FirstStuckIs(records, queue, index);
          StepReachable(setup, Abs(), Block(w));
          BlockEntry(index, gate.reason);
          return true;
        }
      }
      FirstStuckIs(records, queue, |queue|);
      blocked := false;
    }

    // -------------------------------------------------------------- take

    method CollectReady() returns (ready: seq<nat>)
      ensures ReadyIndexes(records, queue, ready)
    {
      ready := [];
      for index := 0 to |queue|
        invariant Ascending(ready)
        invariant forall k: nat :: k in ready <==> k < index && IsReady(records, queue[k])
      {
        var gate := DependencyStatus(queue[index]);
        if gate.Ready? {
          assert forall i | 0 <= i < |ready| :: ready[i] in ready;
          ready := ready + [index];
        }
      }
    }

    method Describe(entry: QueuedJob, warm: map<string, ContextStore.Entry>) returns (candidate: Policy.Candidate)
      ensures candidate == Describing(warm)(entry)
      ensures candidate.id == entry.job.id && candidate.sequence == entry.sequence
      ensures candidate.submittedAt == entry.profile.submittedAt && candidate.demand == entry.profile.demand
      ensures candidate.requestedBytes == ContextStore.Requested(entry.profile.contexts)
      ensures candidate.reusableBytes == ContextStore.Reusable(warm, entry.profile.contexts)
      ensures candidate.affinity == ContextStore.AffinityOf(warm, entry.profile.contexts)
    {
      var requested := ContextStore.RequestedBytes(entry.profile.contexts);
      var reusable := ContextStore.ReusableBytes(warm, entry.profile.contexts);
      var affinity := ContextStore.Affinity(warm, entry.profile.contexts);
      candidate := Policy.Candidate(
        entry.job.id, entry.profile.submittedAt, entry.sequence, entry.profile.demand,
        requested, reusable, affinity);
    }

    method BuildCandidates(ready: seq<nat>, warm: map<string, ContextStore.Entry>)
      returns (candidates: seq<Policy.Candidate>)
      requires forall i | 0 <= i < |ready| :: ready[i] < |queue|
      ensures Offered(queue, ready, warm, candidates)
    {
      candidates := [];
      for i := 0 to |ready|
        invariant Lists(queue, ready[..i], Describing(warm), candidates)
      {
        var candidate := Describe(queue[ready[i]], warm);
        ListsNext(queue, ready, Describing(warm), candidates, i, candidate);
        candidates := candidates + [candidate];
      }
      assert ready[..|ready|] == ready;
    }

    /** Ask the policy; an answer outside the list falls back to the first ready entry. */
    method Choose(ready: seq<nat>, choose: Chooser, warm: map<string, ContextStore.Entry>, attempt: nat)
      returns (k: nat)
      requires ReadyIndexes(records, queue, ready) && ready != []
      ensures Selectable(Abs(), k) || (k < |queue| && queue[k].job.id !in records)
      ensures PolicyPicks(Abs(), choose, warm, attempt, k)
    {
      assert forall i | 0 <= i < |ready| :: ready[i] in ready;
      var candidates := BuildCandidates(ready, warm);
      var decision := choose(attempt, candidates);
      if decision < 0 || decision >= |ready| { decision := 0; }
      k := ready[decision];
      assert k in ready;
      assert decision == Chosen(choose(attempt, candidates), |ready|);
    }

    /** Moves the chosen entry from the queue to worker w. */
    method DispatchEntry(w: nat, k: nat, outputs: map<string, HandedOutput>)
      requires w < |workers| && Selectable(Abs(), k)
      requires records[queue[k].job.id] == QueuedRecord(queue[k].job)
      requires outputs == GateOf(records, queue[k].job.dependsOn).outputs
      modifies this
      ensures Abs() == old(AfterDispatch(Abs(), w, k))
    {
      var entry := queue[k];
      queue := queue[..k] + queue[k + 1..];
      var r := records[entry.job.id];
      r := r.(phase := Running, workerID := w + 1, dependencyOutputs := outputs);
      records := records[entry.job.id := r];
      workers := workers[w := Executing(entry)];
      log := log + [Event(PressureSampled, entry.job.id), Event(AgentDispatched, entry.job.id)];
    }

    /** No entry is ready: return when stopped and empty, otherwise wait. */
    method Rest(w: nat) returns (taken: Taken, ghost step: Step)
      requires Valid() && Choosing(Abs(), w) && NothingReady(records, queue)
      modifies this
      ensures Valid()
      ensures old(Enabled(setup, Abs(), step)) && Abs() == old(Apply(setup, Abs(), step))
      ensures if old(queue == [] && stopped) then step == Exit(w) && taken == NoMoreWork
              else step == Sleep(w) && taken == MustWait
    {
      if |queue| == 0 && stopped {
        step := Exit(w);
        StepReachable(setup, Abs(), step);
        workers := workers[w := Exited];
        taken := NoMoreWork;
      } else {
        step := Sleep(w);
        StepReachable(setup, Abs(), step);
        workers := workers[w := Waiting];
        taken := MustWait;
      }
    }

    /** Hand entry k its dependency outputs and dispatch it, or block it if they cannot be encoded. */
    method Launch(w: nat, k: nat) returns (taken: Option<Taken>, ghost step: Step)
      requires Valid() && Choosing(Abs(), w) && Selectable(Abs(), k)
      modifies this
      ensures Valid()
      ensures old(Enabled(setup, Abs(), step)) && Abs() == old(Apply(setup, Abs(), step))
      ensures step == Refuse(w, k) || step == Dispatch(w, k)
      ensures taken == if step.Refuse? then None else Some(Took(old(queue)[k]))
    {
      QueuedEntries();
      var gate := DependencyStatus(queue[k]);
      if gate.outputs != map[] && !encodable(gate.outputs) {
        step := Refuse(w, k);
        StepReachable(setup, Abs(), step);
        BlockEntry(k, OutputsNotEncodable);
        taken := None;
      } else {
        step := Dispatch(w, k);
        StepReachable(setup, Abs(), step);
        taken := Some(Took(queue[k]));
        DispatchEntry(w, k, gate.outputs);
      }
    }

    /** Propagates permanent dependency failures until nothing more can be blocked. */
    method BlockAll(w: nat) returns (ghost steps: seq<Step>)
      requires Valid() && Is(workers, w, Awake)
      modifies this
      ensures Valid() && Is(workers, w, Awake) && NothingStuck(records, queue)
      ensures BlocksLead(setup, old(Abs()), w, steps, Abs())
      ensures |queue| <= old(|queue|)
    {
      ghost var s0 := Abs();
      steps := [];
      ghost var before := s0;
      var blocked := BlockUnrunnable(w);
      while blocked
        invariant Valid() && Is(workers, w, Awake) && |queue| <= |s0.queue|
        invariant BlocksLead(setup, s0, w, steps, before)
        invariant if blocked then Enabled(setup, before, Block(w)) && Abs() == Apply(setup, before, Block(w))
                  else Abs() == before && NothingStuck(records, queue)
        decreases blocked, |queue|
      {
        BlockedMore(setup, s0, w, steps, before);
        steps := steps + [Block(w)];
        before := Abs();
        blocked := BlockUnrunnable(w);
      }
    }

    method RestRound(w: nat, ghost choose: Chooser, ghost warm: map<string, ContextStore.Entry>,
                     ghost s0: State, ghost before: seq<Step>)
      returns (taken: Taken, ghost steps: seq<Step>)
      requires Valid() && Choosing(Abs(), w) && NothingReady(records, queue)
      requires Underway(setup, s0, w, choose, warm, before, Abs())
      modifies this
      ensures Valid()
      ensures Takes(setup, s0, w, choose, warm, steps, taken)
      ensures CanRun(setup, s0, steps) && Abs() == RunFrom(setup, s0, steps)
    {
      ghost var s := Abs();
      ghost var last;
      taken, last := Rest(w);
      TakingDone(setup, s0, w, choose, warm, before, s, last, taken);
      steps := before + [last];
    }

    method LaunchRound(w: nat, k: nat, ghost choose: Chooser, ghost warm: map<string, ContextStore.Entry>,
                       ghost s0: State, ghost before: seq<Step>)
      returns (taken: Option<Taken>, ghost steps: seq<Step>)
      requires Valid() && Choosing(Abs(), w) && Selectable(Abs(), k)
      requires PolicyPicks(Abs(), choose, warm, Refusals(before), k)
      requires Underway(setup, s0, w, choose, warm, before, Abs())
      modifies this
      ensures Valid()
      ensures taken.None? ==> Is(workers, w, Awake) && Underway(setup, s0, w, choose, warm, steps, Abs())
      ensures taken.None? ==> |queue| < old(|queue|) && Refusals(steps) == Refusals(before) + 1
      ensures taken.Some? ==> Takes(setup, s0, w, choose, warm, steps, taken.value)
      ensures taken.Some? ==> CanRun(setup, s0, steps) && Abs() == RunFrom(setup, s0, steps)
    {
      ghost var s := Abs();
      ghost var step;
      taken, step := Launch(w, k);
      if taken.Some? {
        TakingDone(setup, s0, w, choose, warm, before, s, step, taken.value);
      } else {
        RefusedRound(setup, s0, w, choose, warm, before, s, k);
      }
      steps := before + [step];
    }

    /** One round of take: block what can be blocked, then rest, dispatch, or refuse the policy's choice. */
    method TakeRound(w: nat, choose: Chooser, warm: map<string, ContextStore.Entry>, attempt: nat,
                     ghost s0: State, ghost before: seq<Step>)
      returns (taken: Option<Taken>, ghost steps: seq<Step>)
      requires Valid() && Is(workers, w, Awake) && Underway(setup, s0, w, choose, warm, before, Abs())
      requires attempt == Refusals(before)
      modifies this
      ensures Valid()
      ensures taken.None? ==> Is(workers, w, Awake) && Underway(setup, s0, w, choose, warm, steps, Abs())
      ensures taken.None? ==> |queue| < old(|queue|) && Refusals(steps) == Refusals(before) + 1
      ensures taken.Some? ==> Takes(setup, s0, w, choose, warm, steps, taken.value)
      ensures taken.Some? ==> CanRun(setup, s0, steps) && Abs() == RunFrom(setup, s0, steps)
    {
      ghost var s := Abs();
      ghost var blocks := BlockAll(w);
      BlockedRound(setup, s0, w, choose, warm, before, s, blocks, Abs());
      s, steps := Abs(), before + blocks;
      var ready := CollectReady();
      if ready == [] {
        NoneReady(records, queue, ready);
        var rest;
        rest, steps := RestRound(w, choose, warm, s0, steps);
        return Some(rest), steps;
      }
      var k := Choose(ready, choose, warm, attempt);
      QueuedEntries();
      taken, steps := LaunchRound(w, k, choose, warm, s0, steps);
    }

    /** From the moment worker w holds the lock until it waits or returns. */
    method Take(w: nat, choose: Chooser, warm: map<string, ContextStore.Entry>)
      returns (taken: Taken, ghost steps: seq<Step>)
      requires Valid() && Is(workers, w, Awake)
      modifies this
      ensures Valid()
      ensures old(Takes(setup, Abs(), w, choose, warm, steps, taken))
      ensures CanRun(setup, old(Abs()), steps) && Abs() == RunFrom(setup, old(Abs()), steps)
    {
      ghost var s0 := Abs();
      steps := [];
      var attempt := 0;
      while true
        invariant Valid() && Is(workers, w, Awake)
        invariant Underway(setup, s0, w, choose, warm, steps, Abs()) && attempt == Refusals(steps)
        decreases |queue|
      {
        var outcome;
        outcome, steps := TakeRound(w, choose, warm, attempt, s0, steps);
        if outcome.Some? {
          return outcome.value, steps;
        }
        attempt := attempt + 1;
      }
    }

    // -------------------------------------------------------------- execute

    /** What execute does with the executor's report before it takes the lock. */
    static method SettleReport(report: Report, verdict: Verdict) returns (settled: Report)
      ensures settled == Settle(report, verdict)
      ensures settled.error.None? ==> (settled.output.committed ==> settled.output.verified)
      ensures settled.output.committed == report.output.committed
      ensures settled.error.None? <==>
        report.error.None? && (report.output.committed ==> verdict.Accepted?)
    {
      var runErr, acb := report.error, report.output;
      if runErr.None? && acb.committed {
        match verdict {
          case Rejected(message) =>
            acb := acb.(verified := false, verificationError := message);
            runErr := Some("verify committed Agent output: " + message);
          case Accepted(scheme, sha, at) =>
            acb := acb.(verified := true, scheme := scheme, manifestSHA256 := sha, verifiedAt := Some(at));
            acb := acb.(verificationError := "");
        }
      }
      settled := Report(runErr, acb);
    }

    /** How the outcome is entered in the record of the job that ran. */
    static method EndRecord(r: Record, ghost job: Job, settled: Report) returns (ended: Record)
      requires r == RunningRecord(job, r.dependencyOutputs, r.workerID)
      ensures ended == FinishedRecord(job, r.dependencyOutputs, r.workerID, settled)
    {
      ended := r.(output := settled.output);
      if settled.error.Some? {
        ended := ended.(phase := Failed, cause := RunFailed(settled.error.value));
      } else {
        ended := ended.(phase := Succeeded);
      }
    }

    method EmitFinished(id: string, r: Record)
      modifies this`log
      ensures log == old(log) + Tag(FinishKinds(r), id)
    {
      if r.output.committed { log := log + [Event(OutputCommitted, id)]; }
      if r.output.verified {
        log := log + [Event(OutputVerified, id)];
      } else if r.output.verificationError != "" {
        log := log + [Event(VerificationFailed, id)];
      }
      log := log + [Event(AgentFinished, id)];
    }

    lemma {:induction false} RunningEntry(w: nat)
      requires Valid() && w < |workers| && workers[w].Executing?
      ensures var e := workers[w].entry;
        && e.job.id in records
        && records[e.job.id] == RunningRecord(e.job, records[e.job.id].dependencyOutputs, records[e.job.id].workerID)
    {
      ReachableInv(setup, Abs());
      assert Executes(Abs(), w);
      FinishExplained(setup, Abs(), w);
    }

    /** The record, the events and the broadcast of a finished job. */
    method EnterOutcome(w: nat, entry: QueuedJob, settled: Report)
      requires Is(workers, w, Executing(entry)) && entry.job.id in records
      requires var r := records[entry.job.id];
        r == RunningRecord(entry.job, r.dependencyOutputs, r.workerID)
      modifies this
      ensures Abs() == old(AfterFinish(Abs(), w, settled))
    {
      var r := EndRecord(records[entry.job.id], entry.job, settled);
      records := records[entry.job.id := r];
      EmitFinished(entry.job.id, r);
      workers := WakeAll(workers)[w := Finishing];
    }

    /** The locked part of execute. */
    method FinishEntry(w: nat, entry: QueuedJob, report: Report, verdict: Verdict)
      requires Valid() && Is(workers, w, Executing(entry))
      requires report == setup.run(entry.job.id) && verdict == setup.verify(entry.job.id)
      modifies this
      ensures Valid()
      ensures old(Enabled(setup, Abs(), Finish(w))) && Abs() == old(Apply(setup, Abs(), Finish(w)))
    {
      var settled := SettleReport(report, verdict);
      RunningEntry(w);
      StepReachable(setup, Abs(), Finish(w));
      EnterOutcome(w, entry, settled);
    }

    /** The deferred pending.Done. */
    method PendingDone(w: nat)
      requires Valid() && Is(workers, w, Finishing)
      modifies this
      ensures Valid()
      ensures Abs() == old(Apply(setup, Abs(), Done(w)))
    {
      StepReachable(setup, Abs(), Done(w));
      pending := pending - 1;
      workers := workers[w := Awake];
    }
  }

  datatype OptionError = NoExecutor | WorkersNotPositive | QueueNotPositive

  /** NewWithOptions on a given verifier and encoder; hasExecutor is false for a nil executor. */
  method NewScheduler(hasExecutor: bool, workerCount: int, queueSize: int, encodable: map<string, HandedOutput> -> bool,
                      ghost run: string -> Report, ghost verify: string -> Verdict)
    returns (result: Result<Scheduler, OptionError>)
    ensures result.Ok? <==> hasExecutor && workerCount > 0 && queueSize > 0
    ensures result.Ok? ==> fresh(result.value) && result.value.Valid() && result.value.Abs() == Initial
    ensures result.Ok? ==> result.value.setup == Setup(workerCount, queueSize, run, verify, encodable)
    ensures result == Err(NoExecutor) <==> !hasExecutor
    ensures result == Err(WorkersNotPositive) <==> hasExecutor && workerCount <= 0
  {
    if !hasExecutor {
      return Err(NoExecutor);
    }
    if workerCount <= 0 {
      return Err(WorkersNotPositive);
    }
    if queueSize <= 0 {
      return Err(QueueNotPositive);
    }
    var scheduler := new Scheduler(workerCount, queueSize, encodable, run, verify);
    return Ok(scheduler);
  }
}
