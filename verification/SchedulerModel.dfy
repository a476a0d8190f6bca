/**
 The DAG scheduler as a state machine. A state holds the queue, the record table, the counters
 and the workers; a step is one thing some goroutine does while it holds the scheduler's mutex
 (or, for Done, the decrement of the pending counter that follows it). Executors and verifiers
 are oracles of the agent ID: an agent runs at most once, so every run has such an oracle.
 */
module SchedulerModel {
  import opened Text
  import Outputs
  import Policy
  import ContextStore

  datatype Phase = Queued | Running | Succeeded | Failed | Blocked

  /** The output fields of an agent control block, copied into the record when its job ends. */
  datatype Output = Output(
    committed: bool, artifacts: Outputs.CommitResult,
    verified: bool, scheme: string, manifestSHA256: string,
    verifiedAt: Option<int>, verificationError: string)

  const NO_ARTIFACTS := Outputs.CommitResult("", [], [], 0, 0)
  const NO_OUTPUT := Output(false, NO_ARTIFACTS, false, "", "", None, "")

  /** What an executor leaves behind: the returned error and the control block's output fields. */
  datatype Report = Report(error: Option<string>, output: Output)

  /** What the output verifier returns. */
  datatype Verdict =
    | Accepted(scheme: string, manifestSHA256: string, verifiedAt: int)
    | Rejected(message: string)

  /** What a downstream agent is told about one dependency: its committed output, and how it was verified. */
  datatype HandedOutput = HandedOutput(
    output: Outputs.DependencyOutput, scheme: string, manifestSHA256: string, verifiedAt: Option<int>)

  datatype BlockReason =
    | UnknownDependency(id: string)
    | DependencyFailed(id: string)
    | DependencyBlocked(id: string)
    | NoCommittedOutput(id: string)
    | NotVerified(id: string)
    | OutputsNotEncodable

  datatype Cause = NoCause | RunFailed(message: string) | GateClosed(reason: BlockReason)

  datatype Job = Job(id: string, dependsOn: seq<string>)

  /** What the policy sees of a job besides its place in the queue. */
  datatype Profile = Profile(submittedAt: int, demand: Policy.Demand, contexts: seq<ContextStore.Ref>)

  datatype QueuedJob = QueuedJob(job: Job, profile: Profile, sequence: nat)

  datatype Record = Record(
    id: string, phase: Phase, dependsOn: seq<string>,
    dependencyOutputs: map<string, HandedOutput>,
    workerID: nat, output: Output, cause: Cause)

  datatype EventKind =
    | AgentSubmitted | AgentBlocked | PressureSampled | AgentDispatched
    | OutputCommitted | OutputVerified | VerificationFailed | AgentFinished

  datatype Event = Event(kind: EventKind, id: string)

  /** A worker goroutine: about to take, in cond.Wait, running an agent, about to call
      pending.Done, or returned. */
  datatype Worker = Awake | Waiting | Executing(entry: QueuedJob) | Finishing | Exited

  datatype State = State(
    queue: seq<QueuedJob>,
    records: map<string, Record>,
    sequence: nat,
    started: bool,
    stopped: bool,
    pending: int,
    workers: seq<Worker>,
    log: seq<Event>,
    accepted: seq<QueuedJob>)   // history: every accepted submission, oldest first

  datatype Setup = Setup(
    workerCount: nat,
    queueCapacity: nat,
    run: string -> Report,
    verify: string -> Verdict,
    encodable: map<string, HandedOutput> -> bool)

  ghost predicate ValidSetup(setup: Setup) {
    setup.workerCount > 0 && setup.queueCapacity > 0
  }

  const Initial := State([], map[], 0, false, false, 0, [], [], [])

  // ---------------------------------------------------------------- dependency gate

  datatype Gate =
    | Ready(outputs: map<string, HandedOutput>)
    | Stuck(reason: BlockReason)
    | Undecided

  function Exported(r: Record): HandedOutput {
    HandedOutput(Outputs.OutputOf(r.id, r.output.artifacts),
                 r.output.scheme, r.output.manifestSHA256, r.output.verifiedAt)
  }

  /** A dependency its dependents may build on. */
  predicate Good(r: Record) {
    r.phase.Succeeded? && r.output.committed && r.output.verified
  }

  predicate Terminal(r: Record) {
    r.phase.Succeeded? || r.phase.Failed? || r.phase.Blocked?
  }

  function StuckReason(d: string, r: Record): BlockReason
    requires Terminal(r) && !Good(r)
  {
    match r.phase
    case Failed => DependencyFailed(d)
    case Blocked => DependencyBlocked(d)
    case _ => if !r.output.committed then NoCommittedOutput(d) else NotVerified(d)
  }

  /** The scan of the sorted dependencies, which stops at the first one that is not good. */
  function GateOf(records: map<string, Record>, deps: seq<string>): Gate {
    if deps == [] then Ready(map[])
    else
      var d := deps[0];
      if d !in records then Stuck(UnknownDependency(d))
      else if Good(records[d]) then
        var rest := GateOf(records, deps[1..]);
        if rest.Ready? then Ready(rest.outputs[d := Exported(records[d])]) else rest
      else if Terminal(records[d]) then Stuck(StuckReason(d, records[d]))
      else Undecided
  }

  predicate IsStuck(records: map<string, Record>, e: QueuedJob) {
    GateOf(records, e.job.dependsOn).Stuck?
  }

  predicate IsReady(records: map<string, Record>, e: QueuedJob) {
    GateOf(records, e.job.dependsOn).Ready?
  }

  /** The first permanently blocked entry, or |queue|. */
  function FirstStuck(records: map<string, Record>, queue: seq<QueuedJob>): (k: nat)
    ensures k <= |queue|
    ensures k < |queue| ==> IsStuck(records, queue[k])
    ensures forall i | 0 <= i < k :: !IsStuck(records, queue[i])
  {
    if queue == [] then 0
    else if IsStuck(records, queue[0]) then 0
    else 1 + FirstStuck(records, queue[1..])
  }

  predicate NothingStuck(records: map<string, Record>, queue: seq<QueuedJob>) {
    forall i | 0 <= i < |queue| :: !IsStuck(records, queue[i])
  }

  predicate NothingReady(records: map<string, Record>, queue: seq<QueuedJob>) {
    forall i | 0 <= i < |queue| :: !IsReady(records, queue[i])
  }

  /** applyDependencyOutputs fails only when there is something to encode and encoding fails. */
  predicate Encodes(setup: Setup, outputs: map<string, HandedOutput>) {
    outputs == map[] || setup.encodable(outputs)
  }

  // ---------------------------------------------------------------- records of each phase

  /** The verifier's part of execute: only an error-free run with committed output is verified,
      and a rejected output fails the run. */
  function Settle(report: Report, verdict: Verdict): Report {
    if report.error.None? && report.output.committed then
      match verdict
      case Rejected(message) =>
        Report(Some("verify committed Agent output: " + message),
               report.output.(verified := false, verificationError := message))
      case Accepted(scheme, sha, at) =>
        Report(None, report.output.(verified := true, scheme := scheme, manifestSHA256 := sha,
                                    verifiedAt := Some(at), verificationError := ""))
    else
      report
  }

  function Settled(setup: Setup, id: string): Report {
    Settle(setup.run(id), setup.verify(id))
  }

  function QueuedRecord(job: Job): Record {
    Record(job.id, Queued, job.dependsOn, map[], 0, NO_OUTPUT, NoCause)
  }

  function RunningRecord(job: Job, outputs: map<string, HandedOutput>, workerID: nat): Record {
    Record(job.id, Running, job.dependsOn, outputs, workerID, NO_OUTPUT, NoCause)
  }

  function FinishedRecord(job: Job, outputs: map<string, HandedOutput>, workerID: nat, report: Report): Record {
    if report.error.Some? then
      Record(job.id, Failed, job.dependsOn, outputs, workerID, report.output, RunFailed(report.error.value))
    else
      Record(job.id, Succeeded, job.dependsOn, outputs, workerID, report.output, NoCause)
  }

  function BlockedRecord(job: Job, reason: BlockReason): Record {
    Record(job.id, Blocked, job.dependsOn, map[], 0, NO_OUTPUT, GateClosed(reason))
  }

  // ---------------------------------------------------------------- events

  function FinishKinds(r: Record): seq<EventKind> {
    (if r.output.committed then [OutputCommitted] else [])
    + (if r.output.verified then [OutputVerified]
       else if r.output.verificationError != "" then [VerificationFailed]
       else [])
    + [AgentFinished]
  }

  function Tag(kinds: seq<EventKind>, id: string): seq<Event> {
    seq(|kinds|, i requires 0 <= i < |kinds| => Event(kinds[i], id))
  }

  // ---------------------------------------------------------------- steps

  datatype Step =
    | Submit(job: Job, profile: Profile, woken: Option<nat>)   // woken: the goroutine cond.Signal picks
    | Start
    | Stop
    | Block(w: nat)              // worker w blocks the first permanently blocked entry
    | Refuse(w: nat, k: nat)     // the chosen entry's dependency outputs cannot be encoded
    | Dispatch(w: nat, k: nat)   // worker w takes queue entry k
    | Sleep(w: nat)
    | Exit(w: nat)
    | Finish(w: nat)
    | Done(w: nat)

  predicate Is(workers: seq<Worker>, w: nat, x: Worker) {
    w < |workers| && workers[w] == x
  }

  /** sync.Cond.Signal wakes one waiting goroutine if there is one. */
  ghost predicate Signals(workers: seq<Worker>, woken: Option<nat>) {
    if woken.Some? then Is(workers, woken.value, Waiting)
    else forall w | 0 <= w < |workers| :: !workers[w].Waiting?
  }

  /** sync.Cond.Broadcast. */
  function WakeAll(workers: seq<Worker>): (r: seq<Worker>)
    ensures |r| == |workers|
    ensures forall w | 0 <= w < |r| :: r[w] == if workers[w].Waiting? then Awake else workers[w]
  {
    seq(|workers|, w requires 0 <= w < |workers| => if workers[w].Waiting? then Awake else workers[w])
  }

  function Without<T>(xs: seq<T>, k: nat): seq<T>
    requires k < |xs|
  {
    xs[..k] + xs[k + 1..]
  }

  predicate Acceptable(setup: Setup, s: State, job: Job) {
    && !s.stopped
    && job.id !in s.records
    && (forall d | d in job.dependsOn :: d in s.records)
    && |s.queue| < setup.queueCapacity
  }

  /** The profiles Submit accepts: a zero demand has been replaced, any other is in range. */
  predicate Admissible(profile: Profile) {
    profile.demand.Valid() && !profile.demand.IsZero()
  }

  /** An awake worker that has blocked everything there is to block and looks for work. */
  predicate Choosing(s: State, w: nat) {
    Is(s.workers, w, Awake) && NothingStuck(s.records, s.queue)
  }

  predicate Selectable(s: State, k: nat) {
    && k < |s.queue|
    && IsReady(s.records, s.queue[k])
    && s.queue[k].job.id in s.records
  }

  ghost predicate Enabled(setup: Setup, s: State, step: Step) {
    match step
    case Submit(job, profile, woken) => Acceptable(setup, s, job) && Admissible(profile) && Signals(s.workers, woken)
    case Start => !s.started && !s.stopped
    case Stop => !s.stopped
    case Block(w) =>
      && Is(s.workers, w, Awake)
      && FirstStuck(s.records, s.queue) < |s.queue|
      && s.queue[FirstStuck(s.records, s.queue)].job.id in s.records
    case Refuse(w, k) =>
      && Choosing(s, w) && Selectable(s, k)
      && !Encodes(setup, GateOf(s.records, s.queue[k].job.dependsOn).outputs)
    case Dispatch(w, k) =>
      && Choosing(s, w) && Selectable(s, k)
      && Encodes(setup, GateOf(s.records, s.queue[k].job.dependsOn).outputs)
    case Sleep(w) =>
      && Choosing(s, w) && NothingReady(s.records, s.queue)
      && !(s.queue == [] && s.stopped)
    case Exit(w) =>
      Choosing(s, w) && s.queue == [] && s.stopped
    case Finish(w) =>
      w < |s.workers| && s.workers[w].Executing? && s.workers[w].entry.job.id in s.records
    case Done(w) => Is(s.workers, w, Finishing)
  }

  function AfterSubmit(s: State, job: Job, profile: Profile, woken: Option<nat>): State {
    var entry := QueuedJob(job, profile, s.sequence + 1);
    s.(sequence := s.sequence + 1,
       records := s.records[job.id := QueuedRecord(job)],
       pending := s.pending + 1,
       queue := s.queue + [entry],
       accepted := s.accepted + [entry],
       workers := if woken.Some? && woken.value < |s.workers| then s.workers[woken.value := Awake] else s.workers,
       log := s.log + [Event(AgentSubmitted, job.id)])
  }

  /** blockEntryLocked. */
  function AfterBlock(s: State, k: nat, reason: BlockReason): State
    requires k < |s.queue|
  {
    var job := s.queue[k].job;
    s.(queue := Without(s.queue, k),
       records := s.records[job.id := BlockedRecord(job, reason)],
       pending := s.pending - 1,
       workers := WakeAll(s.workers),
       log := s.log + [Event(AgentBlocked, job.id)])
  }

  function AfterDispatch(s: State, w: nat, k: nat): State
    requires w < |s.workers| && Selectable(s, k)
  {
    var entry := s.queue[k];
    var outputs := GateOf(s.records, entry.job.dependsOn).outputs;
    s.(queue := Without(s.queue, k),
       records := s.records[entry.job.id := RunningRecord(entry.job, outputs, w + 1)],
       workers := s.workers[w := Executing(entry)],
       log := s.log + [Event(PressureSampled, entry.job.id), Event(AgentDispatched, entry.job.id)])
  }

  function AfterFinish(s: State, w: nat, report: Report): State
    requires w < |s.workers| && s.workers[w].Executing? && s.workers[w].entry.job.id in s.records
  {
    var job := s.workers[w].entry.job;
    var r := s.records[job.id];
    var r' := FinishedRecord(job, r.dependencyOutputs, r.workerID, report);
    s.(records := s.records[job.id := r'],
       workers := WakeAll(s.workers)[w := Finishing],
       log := s.log + Tag(FinishKinds(r'), job.id))
  }

  ghost function Apply(setup: Setup, s: State, step: Step): State
    requires Enabled(setup, s, step)
  {
    match step
    case Submit(job, profile, woken) => AfterSubmit(s, job, profile, woken)
    case Start => s.(started := true, workers := seq(setup.workerCount, _ => Awake))
    case Stop => s.(stopped := true, workers := WakeAll(s.workers))
    case Block(w) =>
      var k := FirstStuck(s.records, s.queue);
      AfterBlock(s, k, GateOf(s.records, s.queue[k].job.dependsOn).reason)
    case Refuse(w, k) => AfterBlock(s, k, OutputsNotEncodable)
    case Dispatch(w, k) => AfterDispatch(s, w, k)
    case Sleep(w) => s.(workers := s.workers[w := Waiting])
    case Exit(w) => s.(workers := s.workers[w := Exited])
    case Finish(w) => AfterFinish(s, w, Settled(setup, s.workers[w].entry.job.id))
    case Done(w) => s.(pending := s.pending - 1, workers := s.workers[w := Awake])
  }

  // ---------------------------------------------------------------- runs

  ghost predicate CanRun(setup: Setup, s: State, steps: seq<Step>)
    decreases |steps|
  {
    steps == [] || (Enabled(setup, s, steps[0]) && CanRun(setup, Apply(setup, s, steps[0]), steps[1..]))
  }

  /** Where a run of these steps ends. */
  ghost function RunFrom(setup: Setup, s: State, steps: seq<Step>): State
    requires CanRun(setup, s, steps)
    decreases |steps|
  {
    if steps == [] then s else RunFrom(setup, Apply(setup, s, steps[0]), steps[1..])
  }

  ghost predicate Reachable(setup: Setup, s: State) {
    exists steps :: CanRun(setup, Initial, steps) && RunFrom(setup, Initial, steps) == s
  }

  /** The state after the first step, seen from a run and from the same run with more steps. */
  lemma {:induction false} RunHead(setup: Setup, s: State, steps: seq<Step>, more: seq<Step>) returns (s': State)
    requires CanRun(setup, s, steps) && steps != []
    ensures CanRun(setup, s', steps[1..]) && RunFrom(setup, s, steps) == RunFrom(setup, s', steps[1..])
    ensures CanRun(setup, s', steps[1..] + more) ==>
      CanRun(setup, s, steps + more) && RunFrom(setup, s, steps + more) == RunFrom(setup, s', steps[1..] + more)
  {
    s' := Apply(setup, s, steps[0]);
    assert (steps + more)[1..] == steps[1..] + more;
  }

  lemma {:induction false} RunConcat(setup: Setup, s: State, first: seq<Step>, second: seq<Step>)
    requires CanRun(setup, s, first) && CanRun(setup, RunFrom(setup, s, first), second)
    ensures CanRun(setup, s, first + second)
    ensures RunFrom(setup, s, first + second) == RunFrom(setup, RunFrom(setup, s, first), second)
    decreases |first|
  {
    if first == [] {
      assert first + second == second;
    } else {
      var s' := RunHead(setup, s, first, second);
      RunConcat(setup, s', first[1..], second);
    }
  }
}
