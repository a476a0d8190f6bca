/** Every enabled step keeps the scheduler invariant. */
module SchedulerPreservation {
  import opened Text
  import opened Sums
  import opened SchedulerModel
  import opened SchedulerInvariants

  // ---------------------------------------------------------------- shared pieces

  lemma {:induction false} InitialInv(setup: Setup)
    requires ValidSetup(setup)
    ensures Inv(setup, Initial)
  {}

  /** Steps that touch only workers and flags leave everything about jobs alone. */
  ghost predicate SameJobs(s: State, s': State) {
    && s'.queue == s.queue && s'.records == s.records && s'.accepted == s.accepted
    && s'.sequence == s.sequence && s'.log == s.log
  }

  lemma {:induction false} SameJobsKept(setup: Setup, s: State, s': State)
    requires Inv(setup, s) && SameJobs(s, s')
    ensures History(s') && QueueShape(s') && Explanations(setup, s') && Logged(s')
  {
    HistoryKept(s, s');
    forall k | 0 <= k < |s'.queue| ensures Placed(s', s'.queue[k]) { assert Placed(s, s.queue[k]); }
    forall i | 0 <= i < |s'.accepted| ensures QueuedIff(s', i) { assert QueuedIff(s, i); }
    forall i | 0 <= i < |s'.accepted| ensures ExplainedAt(setup, s', i) { assert ExplainedAt(setup, s, i); }
    forall id ensures Traced(s', id) { assert Traced(s, id); }
    forall p | 0 <= p < |s'.log| ensures VerifiedBefore(s', p) { assert VerifiedBefore(s, p); }
  }

  lemma {:induction false} HistoryKept(s: State, s': State)
    requires History(s)
    requires s'.accepted == s.accepted && s'.sequence == s.sequence && s'.records.Keys == s.records.Keys
    ensures History(s')
  {
    forall i | 0 <= i < |s'.accepted| ensures WellPlaced(s'.accepted, i) { assert WellPlaced(s.accepted, i); }
  }

  lemma {:induction false} MembersWithout(queue: seq<QueuedJob>, k: nat)
    requires k < |queue|
    requires forall i, j | 0 <= i < j < |queue| :: queue[i].sequence < queue[j].sequence
    ensures forall e :: e in Without(queue, k) <==> e in queue && e != queue[k]
    ensures forall i, j | 0 <= i < j < |Without(queue, k)| ::
      Without(queue, k)[i].sequence < Without(queue, k)[j].sequence
  {
    var rest := Without(queue, k);
    assert forall l | 0 <= l < |rest| :: rest[l] == queue[if l < k then l else l + 1];
    forall e ensures e in rest <==> e in queue && e != queue[k] {
      if e in queue && e != queue[k] {
        var l :| 0 <= l < |queue| && queue[l] == e;
        assert rest[if l < k then l else l - 1] == e;
      }
    }
  }

  /** Taking entry k out of the queue while giving its record another phase. */
  lemma {:induction false} Dequeued(s: State, s': State, k: nat, r: Record)
    requires History(s) && QueueShape(s) && k < |s.queue|
    requires s'.accepted == s.accepted
    requires s'.queue == Without(s.queue, k)
    requires s'.records == s.records[s.queue[k].job.id := r] && !r.phase.Queued?
    ensures QueueShape(s')
  {
    var e := s.queue[k];
    assert Placed(s, e);
    MembersWithout(s.queue, k);
    forall l | 0 <= l < |s'.queue| ensures Placed(s', s'.queue[l]) {
      assert s'.queue[l] in s.queue;
      assert Placed(s, s'.queue[l]);
    }
    forall i | 0 <= i < |s'.accepted| ensures QueuedIff(s', i) {
      assert QueuedIff(s, i);
      DistinctIds(s, i, e.sequence - 1);
    }
  }

  lemma {:induction false} LogAppended(s: State, s': State, id: string, kinds: seq<EventKind>)
    requires Logged(s)
    requires s'.log == s.log + Tag(kinds, id)
    requires id in s'.records && forall d | d != id :: d in s'.records <==> d in s.records
    requires forall d | d != id && d in s.records :: s'.records[d] == s.records[d]
    requires id in s.records ==> s'.records[id].dependsOn == s.records[id].dependsOn
    requires TraceOf(s'.records[id]) == (if id in s.records then TraceOf(s.records[id]) else []) + kinds
    requires AgentDispatched in kinds ==>
      forall d | d in s'.records[id].dependsOn :: Event(OutputVerified, d) in s.log
    ensures Logged(s')
  {
    forall d ensures Traced(s', d) {
      assert Traced(s, d);
      KindsOfConcat(s.log, Tag(kinds, id), d);
      KindsOfTag(kinds, id, d);
    }
    forall p | 0 <= p < |s'.log| ensures VerifiedBefore(s', p) {
      if p < |s.log| {
        assert VerifiedBefore(s, p) && s'.log[..p] == s.log[..p] && s'.log[p] == s.log[p];
      } else if s'.log[p].kind == AgentDispatched {
        assert s'.log[p] == Tag(kinds, id)[p - |s.log|];
        assert forall e | e in s.log :: e in s'.log[..p] by {
          assert s'.log[..p] == s.log + Tag(kinds, id)[..p - |s.log|];
        }
      }
    }
  }

  lemma {:induction false} SumWake(workers: seq<Worker>)
    ensures Sum(WakeAll(workers), Busy) == Sum(workers, Busy)
  {
    if workers != [] {
      assert WakeAll(workers)[1..] == WakeAll(workers[1..]);
      SumWake(workers[1..]);
    }
  }

  lemma {:induction false} WorkersKept(setup: Setup, s: State, s': State)
    requires WorkerShape(setup, s)
    requires s'.accepted == s.accepted && s'.records == s.records && s'.started == s.started
    requires |s'.workers| == |s.workers|
    requires forall w | 0 <= w < |s.workers| && (s.workers[w].Executing? || s'.workers[w].Executing?) ::
      s'.workers[w] == s.workers[w]
    ensures WorkerShape(setup, s')
  {
    forall w | 0 <= w < |s'.workers| ensures Executes(s', w) { assert Executes(s, w); }
    forall i | 0 <= i < |s'.accepted| ensures Executed(s', i) { assert Executed(s, i); }
  }

  // ---------------------------------------------------------------- worker-only steps

  lemma {:induction false} StartInv(setup: Setup, s: State)
    requires Inv(setup, s) && Enabled(setup, s, Start)
    ensures Inv(setup, Apply(setup, s, Start))
  {
    var s' := Apply(setup, s, Start);
    SameJobsKept(setup, s, s');
    assert s.workers == [];
    forall i | 0 <= i < |s'.accepted| ensures Executed(s', i) { assert Executed(s, i); }
    SumZero(s'.workers, Busy);
  }

  lemma {:induction false} StopInv(setup: Setup, s: State)
    requires Inv(setup, s) && Enabled(setup, s, Stop)
    ensures Inv(setup, Apply(setup, s, Stop))
  {
    var s' := Apply(setup, s, Stop);
    SameJobsKept(setup, s, s');
    WorkersKept(setup, s, s');
    SumWake(s.workers);
  }

  lemma {:induction false} SleepInv(setup: Setup, s: State, w: nat)
    requires Inv(setup, s) && Enabled(setup, s, Sleep(w))
    ensures Inv(setup, Apply(setup, s, Sleep(w)))
  {
    var s' := Apply(setup, s, Sleep(w));
    SameJobsKept(setup, s, s');
    WorkersKept(setup, s, s');
    SumUpdate(s.workers, w, Waiting, Busy);
    ActionableZero(s.records, s.queue);
  }

  lemma {:induction false} ExitInv(setup: Setup, s: State, w: nat)
    requires Inv(setup, s) && Enabled(setup, s, Exit(w))
    ensures Inv(setup, Apply(setup, s, Exit(w)))
  {
    var s' := Apply(setup, s, Exit(w));
    SameJobsKept(setup, s, s');
    WorkersKept(setup, s, s');
    SumUpdate(s.workers, w, Exited, Busy);
    if SomeoneWaits(s'.workers) {
      var v :| 0 <= v < |s'.workers| && s'.workers[v].Waiting?;
      assert s.workers[v].Waiting?;
      var x :| 0 <= x < |s.workers| && s.workers[x].Executing?;
      assert s'.workers[x].Executing?;
    }
  }

  lemma {:induction false} DoneInv(setup: Setup, s: State, w: nat)
    requires Inv(setup, s) && Enabled(setup, s, Done(w))
    ensures Inv(setup, Apply(setup, s, Done(w)))
  {
    var s' := Apply(setup, s, Done(w));
    SameJobsKept(setup, s, s');
    WorkersKept(setup, s, s');
    SumUpdate(s.workers, w, Awake, Busy);
    SumUpdate(s.workers, w, Awake, Active);
    if SomeoneWaits(s'.workers) {
      var v :| 0 <= v < |s'.workers| && s'.workers[v].Waiting?;
      assert s.workers[v].Waiting?;
      if s.stopped && s.queue == [] {
        var x :| 0 <= x < |s.workers| && s.workers[x].Executing?;
        assert s'.workers[x].Executing?;
      }
    }
  }

  // ---------------------------------------------------------------- Submit

  lemma {:induction false} SubmitFrame(s: State, job: Job, profile: Profile, woken: Option<nat>, i: nat)
    requires History(s) && job.id !in s.records && i < |s.accepted|
    ensures var s' := AfterSubmit(s, job, profile, woken);
      && s.accepted[i].job.id in s.records && s.accepted[i].job.id != job.id
      && s'.accepted[i] == s.accepted[i]
      && s'.records[s.accepted[i].job.id] == s.records[s.accepted[i].job.id]
  {
    KnownDependencies(s, i);
  }

  lemma {:induction false} SubmitQueue(s: State, job: Job, profile: Profile, woken: Option<nat>)
    requires History(s) && QueueShape(s) && job.id !in s.records
    ensures QueueShape(AfterSubmit(s, job, profile, woken))
  {
    var s' := AfterSubmit(s, job, profile, woken);
    forall k | 0 <= k < |s'.queue| ensures Placed(s', s'.queue[k]) {
      if k < |s.queue| { assert Placed(s, s.queue[k]); }
    }
    forall k, l | 0 <= k < l < |s'.queue| ensures s'.queue[k].sequence < s'.queue[l].sequence {
      assert Placed(s, s.queue[k]);
    }
    forall i | 0 <= i < |s'.accepted| ensures QueuedIff(s', i) {
      if i < |s.accepted| {
        assert QueuedIff(s, i);
        SubmitFrame(s, job, profile, woken, i);
        assert s'.accepted[i] in s'.queue <==> s.accepted[i] in s.queue;
      } else {
        assert s'.queue[|s.queue|] == s'.accepted[i];
      }
    }
  }

  lemma {:induction false} SubmitExplained(setup: Setup, s: State, job: Job, profile: Profile, woken: Option<nat>)
    requires History(s) && Explanations(setup, s) && job.id !in s.records
    ensures Explanations(setup, AfterSubmit(s, job, profile, woken))
  {
    var s' := AfterSubmit(s, job, profile, woken);
    forall i | 0 <= i < |s'.accepted| ensures ExplainedAt(setup, s', i) {
      if i < |s.accepted| {
        assert ExplainedAt(setup, s, i);
        SubmitFrame(s, job, profile, woken, i);
        ExplainedKept(setup, s, s'.records, i);
      }
    }
  }

  lemma {:induction false} SubmitWorkers(setup: Setup, s: State, job: Job, profile: Profile, woken: Option<nat>)
    requires History(s) && WorkerShape(setup, s) && job.id !in s.records && Signals(s.workers, woken)
    ensures WorkerShape(setup, AfterSubmit(s, job, profile, woken))
  {
    var s' := AfterSubmit(s, job, profile, woken);
    forall w | 0 <= w < |s'.workers| ensures Executes(s', w) {
      assert Executes(s, w);
      if s.workers[w].Executing? {
        SubmitFrame(s, job, profile, woken, s.workers[w].entry.sequence - 1);
      }
    }
    forall i | 0 <= i < |s'.accepted| ensures Executed(s', i) {
      if i < |s.accepted| {
        assert Executed(s, i);
        SubmitFrame(s, job, profile, woken, i);
      }
    }
  }

  /** A queued entry's gate is unaffected by records whose verdict does not change. */
  lemma {:induction false} QueueGates(s: State, after: map<string, Record>, queue: seq<QueuedJob>)
    requires History(s) && (forall k | 0 <= k < |queue| :: Placed(s, queue[k]))
    requires SameVerdicts(s.records, after)
    ensures ActionableCount(s.records, queue) == ActionableCount(after, queue)
  {
    forall k | 0 <= k < |queue| ensures Actionable(s.records, queue[k]) == Actionable(after, queue[k]) {
      assert Placed(s, queue[k]);
      KnownDependencies(s, queue[k].sequence - 1);
      GateSame(s.records, after, queue[k].job.dependsOn);
    }
    ActionableSame(s.records, after, queue);
  }

  lemma {:induction false} SubmitCounts(setup: Setup, s: State, job: Job, profile: Profile, woken: Option<nat>)
    requires History(s) && QueueShape(s) && Counters(setup, s) && Wakeups(s)
    requires Enabled(setup, s, Submit(job, profile, woken))
    ensures Counters(setup, AfterSubmit(s, job, profile, woken))
    ensures Wakeups(AfterSubmit(s, job, profile, woken))
  {
    var s' := AfterSubmit(s, job, profile, woken);
    if woken.Some? {
      SumUpdate(s.workers, woken.value, Awake, Busy);
      SumUpdate(s.workers, woken.value, Awake, Active);
      assert SomeoneWaits(s.workers);
    } else {
      assert !SomeoneWaits(s'.workers);
    }
    QueueGates(s, s'.records, s.queue);
    ActionableAppend(s'.records, s.queue, [s'.queue[|s.queue|]]);
    assert forall w | 0 <= w < |s'.workers| && s'.workers[w].Exited? :: s.workers[w].Exited?;
  }

  lemma {:induction false} SubmitInv(setup: Setup, s: State, job: Job, profile: Profile, woken: Option<nat>)
    requires Inv(setup, s) && Enabled(setup, s, Submit(job, profile, woken))
    ensures Inv(setup, AfterSubmit(s, job, profile, woken))
  {
    var s' := AfterSubmit(s, job, profile, woken);
    HistorySubmit(s, job, profile, woken);
    SubmitQueue(s, job, profile, woken);
    SubmitExplained(setup, s, job, profile, woken);
    SubmitWorkers(setup, s, job, profile, woken);
    SubmitCounts(setup, s, job, profile, woken);
    assert Tag([AgentSubmitted], job.id) == [Event(AgentSubmitted, job.id)];
    LogAppended(s, s', job.id, [AgentSubmitted]);
  }

  // ---------------------------------------------------------------- Block and Refuse

  lemma {:induction false} BlockExplained(setup: Setup, s: State, k: nat, reason: BlockReason)
    requires History(s) && QueueShape(s) && Explanations(setup, s) && k < |s.queue|
    requires Refused(setup, GateOf(s.records, s.queue[k].job.dependsOn), reason)
    ensures Explanations(setup, AfterBlock(s, k, reason))
    ensures Placed(s, s.queue[k]) && s.queue[k].job.id in s.records
    ensures s.records[s.queue[k].job.id] == QueuedRecord(s.queue[k].job)
  {
    var job := s.queue[k].job;
    assert Placed(s, s.queue[k]) && s.queue[k] in s.queue;
    var i := s.queue[k].sequence - 1;
    assert QueuedIff(s, i);
    KnownDependencies(s, i);
    GateIgnores(s.records, job.id, BlockedRecord(job, reason), job.dependsOn);
    assert ExplainedAt(setup, s, i);
    ExplanationsUpdate(setup, s, AfterBlock(s, k, reason), i, BlockedRecord(job, reason));
  }

  lemma {:induction false} BlockCounts(setup: Setup, s: State, k: nat, reason: BlockReason)
    requires Counters(setup, s) && Wakeups(s) && k < |s.queue|
    ensures Counters(setup, AfterBlock(s, k, reason)) && Wakeups(AfterBlock(s, k, reason))
  {
    var s' := AfterBlock(s, k, reason);
    SumWake(s.workers);
    assert !SomeoneWaits(s'.workers);
    assert forall v | 0 <= v < |s'.workers| && s'.workers[v].Exited? :: s.workers[v].Exited?;
  }

  lemma {:induction false} BlockInv(setup: Setup, s: State, k: nat, reason: BlockReason)
    requires Inv(setup, s) && k < |s.queue|
    requires Refused(setup, GateOf(s.records, s.queue[k].job.dependsOn), reason)
    ensures Inv(setup, AfterBlock(s, k, reason))
  {
    var s' := AfterBlock(s, k, reason);
    var job := s.queue[k].job;
    BlockExplained(setup, s, k, reason);
    HistoryKept(s, s');
    Dequeued(s, s', k, BlockedRecord(job, reason));
    RecordSwapKeepsWorkers(setup, s, s', s.queue[k].sequence - 1);
    BlockCounts(setup, s, k, reason);
    assert Tag([AgentBlocked], job.id) == [Event(AgentBlocked, job.id)];
    LogAppended(s, s', job.id, [AgentBlocked]);
  }

  /** Moving a job that no worker runs to a phase that no worker runs. */
  lemma {:induction false} RecordSwapKeepsWorkers(setup: Setup, s: State, s': State, i: nat)
    requires History(s) && WorkerShape(setup, s) && i < |s.accepted| && s.accepted[i].job.id in s.records
    requires s'.accepted == s.accepted && s'.started == s.started && s'.workers == WakeAll(s.workers)
    requires s'.records.Keys == s.records.Keys
    requires forall d | d in s.records && d != s.accepted[i].job.id :: s'.records[d] == s.records[d]
    requires !s.records[s.accepted[i].job.id].phase.Running? && !s'.records[s.accepted[i].job.id].phase.Running?
    ensures WorkerShape(setup, s')
  {
    forall w | 0 <= w < |s'.workers| ensures Executes(s', w) { assert Executes(s, w); }
    forall k | 0 <= k < |s'.accepted| ensures Executed(s', k) { assert Executed(s, k); }
  }

  // ---------------------------------------------------------------- Dispatch

  lemma {:induction false} DispatchGates(setup: Setup, s: State, w: nat, k: nat)
    requires History(s) && QueueShape(s) && Enabled(setup, s, Dispatch(w, k))
    ensures ActionableCount(AfterDispatch(s, w, k).records, AfterDispatch(s, w, k).queue)
      == ActionableCount(s.records, s.queue) - 1
    ensures s.queue[k] in s.queue
  {
    var s' := AfterDispatch(s, w, k);
    var entry := s.queue[k];
    MembersWithout(s.queue, k);
    forall l | 0 <= l < |s'.queue| ensures Placed(s, s'.queue[l]) { assert s'.queue[l] in s.queue; }
    assert Placed(s, entry) && entry in s.queue && QueuedIff(s, entry.sequence - 1);
    QueueGates(s, s'.records, s'.queue);
    ActionableWithout(s.records, s.queue, k);
  }

  lemma {:induction false} DispatchCounts(setup: Setup, s: State, w: nat, k: nat)
    requires History(s) && QueueShape(s) && Counters(setup, s) && Wakeups(s)
    requires Enabled(setup, s, Dispatch(w, k))
    ensures Counters(setup, AfterDispatch(s, w, k)) && Wakeups(AfterDispatch(s, w, k))
  {
    var s' := AfterDispatch(s, w, k);
    var entry := s.queue[k];
    SumUpdate(s.workers, w, Executing(entry), Busy);
    SumUpdate(s.workers, w, Executing(entry), Active);
    DispatchGates(setup, s, w, k);
    assert s'.workers[w].Executing?;
    if SomeoneWaits(s'.workers) {
      var v :| 0 <= v < |s'.workers| && s'.workers[v].Waiting?;
      assert s.workers[v].Waiting?;
    }
    assert forall v | 0 <= v < |s'.workers| :: !s'.workers[v].Exited?;
  }

  lemma {:induction false} DispatchWorkers(setup: Setup, s: State, w: nat, k: nat)
    requires History(s) && QueueShape(s) && WorkerShape(setup, s)
    requires Enabled(setup, s, Dispatch(w, k))
    ensures WorkerShape(setup, AfterDispatch(s, w, k))
  {
    var s' := AfterDispatch(s, w, k);
    var entry := s.queue[k];
    assert Placed(s, entry) && entry in s.queue && s.accepted[entry.sequence - 1] == entry;
    assert QueuedIff(s, entry.sequence - 1);
    forall v | 0 <= v < |s'.workers| ensures Executes(s', v) { assert Executes(s, v); }
    forall i | 0 <= i < |s.accepted| ensures Executed(s', i) {
      assert Executed(s, i);
      DistinctIds(s, i, entry.sequence - 1);
    }
  }

  lemma {:induction false} VerifiedLogged(s: State, d: string)
    requires Logged(s) && d in s.records && Good(s.records[d])
    ensures Event(OutputVerified, d) in s.log
  {
    assert Traced(s, d);
    KindInLog(s.log, d, OutputVerified);
  }

  lemma {:induction false} DispatchExplained(setup: Setup, s: State, w: nat, k: nat)
    requires History(s) && QueueShape(s) && Explanations(setup, s)
    requires Enabled(setup, s, Dispatch(w, k))
    ensures Explanations(setup, AfterDispatch(s, w, k))
    ensures s.records[s.queue[k].job.id] == QueuedRecord(s.queue[k].job)
  {
    var job := s.queue[k].job;
    assert Placed(s, s.queue[k]) && s.queue[k] in s.queue;
    var i := s.queue[k].sequence - 1;
    assert QueuedIff(s, i);
    KnownDependencies(s, i);
    var r := RunningRecord(job, GateOf(s.records, job.dependsOn).outputs, w + 1);
    GateIgnores(s.records, job.id, r, job.dependsOn);
    assert ExplainedAt(setup, s, i);
    ExplanationsUpdate(setup, s, AfterDispatch(s, w, k), i, r);
  }

  lemma {:induction false} DispatchLogged(setup: Setup, s: State, w: nat, k: nat)
    requires Logged(s) && Enabled(setup, s, Dispatch(w, k))
    requires s.records[s.queue[k].job.id] == QueuedRecord(s.queue[k].job)
    ensures Logged(AfterDispatch(s, w, k))
  {
    var job := s.queue[k].job;
    GateReadyIff(s.records, job.dependsOn);
    forall d | d in job.dependsOn ensures Event(OutputVerified, d) in s.log { VerifiedLogged(s, d); }
    var kinds := [PressureSampled, AgentDispatched];
    assert Tag(kinds, job.id) == [Event(PressureSampled, job.id), Event(AgentDispatched, job.id)];
    LogAppended(s, AfterDispatch(s, w, k), job.id, kinds);
  }

  lemma {:induction false} DispatchInv(setup: Setup, s: State, w: nat, k: nat)
    requires Inv(setup, s) && Enabled(setup, s, Dispatch(w, k))
    ensures Inv(setup, AfterDispatch(s, w, k))
  {
    var s' := AfterDispatch(s, w, k);
    HistoryKept(s, s');
    Dequeued(s, s', k, s'.records[s.queue[k].job.id]);
    DispatchExplained(setup, s, w, k);
    DispatchWorkers(setup, s, w, k);
    DispatchCounts(setup, s, w, k);
    DispatchLogged(setup, s, w, k);
  }

  // ---------------------------------------------------------------- Finish

  lemma {:induction false} FinishWorkers(setup: Setup, s: State, w: nat, report: Report)
    requires History(s) && WorkerShape(setup, s) && w < |s.workers| && s.workers[w].Executing?
    requires Executes(s, w)
    ensures WorkerShape(setup, AfterFinish(s, w, report))
  {
    assert Executes(s, w);
    var s' := AfterFinish(s, w, report);
    var entry := s.workers[w].entry;
    forall v | 0 <= v < |s'.workers| ensures Executes(s', v) { assert Executes(s, v); }
    forall i | 0 <= i < |s.accepted| ensures Executed(s', i) {
      assert Executed(s, i);
      DistinctIds(s, i, entry.sequence - 1);
    }
  }

  lemma {:induction false} FinishCounts(setup: Setup, s: State, w: nat, report: Report)
    requires Counters(setup, s) && Wakeups(s)
    requires w < |s.workers| && s.workers[w].Executing? && s.workers[w].entry.job.id in s.records
    ensures Counters(setup, AfterFinish(s, w, report)) && Wakeups(AfterFinish(s, w, report))
  {
    var s' := AfterFinish(s, w, report);
    SumWake(s.workers);
    SumUpdate(WakeAll(s.workers), w, Finishing, Busy);
    assert !SomeoneWaits(s'.workers);
    assert forall v | 0 <= v < |s'.workers| && s'.workers[v].Exited? :: s.workers[v].Exited?;
  }

  /** Finishing touches no queued job. */
  lemma {:induction false} FinishQueue(s: State, s': State, i: nat)
    requires History(s) && QueueShape(s) && i < |s.accepted|
    requires s'.accepted == s.accepted && s'.queue == s.queue
    requires s.accepted[i].job.id in s.records && !s.records[s.accepted[i].job.id].phase.Queued?
    requires s'.records.Keys == s.records.Keys
    requires !s'.records[s.accepted[i].job.id].phase.Queued?
    requires forall d | d in s.records && d != s.accepted[i].job.id :: s'.records[d] == s.records[d]
    ensures QueueShape(s')
  {
    forall k | 0 <= k < |s'.queue| ensures Placed(s', s'.queue[k]) { assert Placed(s, s.queue[k]); }
    forall k | 0 <= k < |s'.accepted| ensures QueuedIff(s', k) {
      assert QueuedIff(s, k);
      DistinctIds(s, k, i);
    }
  }

  lemma {:induction false} FinishExplained(setup: Setup, s: State, w: nat)
    requires History(s) && Explanations(setup, s) && WorkerShape(setup, s)
    requires Enabled(setup, s, Finish(w))
    ensures Explanations(setup, Apply(setup, s, Finish(w)))
    ensures var e := s.workers[w].entry;
      Placed(s, e) && s.records[e.job.id] ==
        RunningRecord(e.job, s.records[e.job.id].dependencyOutputs, s.records[e.job.id].workerID)
  {
    assert Executes(s, w);
    var job := s.workers[w].entry.job;
    var i := s.workers[w].entry.sequence - 1;
    var r := s.records[job.id];
    var r' := FinishedRecord(job, r.dependencyOutputs, r.workerID, Settled(setup, job.id));
    KnownDependencies(s, i);
    assert ExplainedAt(setup, s, i);
    GateIgnores(s.records, job.id, r', job.dependsOn);
    ExplanationsUpdate(setup, s, Apply(setup, s, Finish(w)), i, r');
  }

  lemma {:induction false} FinishRecords(setup: Setup, s: State, w: nat)
    requires History(s) && QueueShape(s) && Explanations(setup, s) && WorkerShape(setup, s)
    requires Enabled(setup, s, Finish(w))
    ensures var s' := Apply(setup, s, Finish(w));
      History(s') && QueueShape(s') && Explanations(setup, s')
  {
    var s' := Apply(setup, s, Finish(w));
    HistoryKept(s, s');
    FinishExplained(setup, s, w);
    FinishQueue(s, s', s.workers[w].entry.sequence - 1);
  }

  lemma {:induction false} FinishLogged(setup: Setup, s: State, w: nat)
    requires History(s) && Explanations(setup, s) && WorkerShape(setup, s) && Logged(s)
    requires Enabled(setup, s, Finish(w))
    ensures Logged(Apply(setup, s, Finish(w)))
  {
    var id := s.workers[w].entry.job.id;
    var s' := Apply(setup, s, Finish(w));
    FinishExplained(setup, s, w);
    LogAppended(s, s', id, FinishKinds(s'.records[id]));
  }

  lemma {:induction false} FinishInv(setup: Setup, s: State, w: nat)
    requires Inv(setup, s) && Enabled(setup, s, Finish(w))
    ensures Inv(setup, Apply(setup, s, Finish(w)))
  {
    var report := Settled(setup, s.workers[w].entry.job.id);
    FinishRecords(setup, s, w);
    FinishWorkers(setup, s, w, report);
    FinishCounts(setup, s, w, report);
    FinishLogged(setup, s, w);
  }

  // ---------------------------------------------------------------- all steps, all runs

  lemma {:induction false} StepInv(setup: Setup, s: State, step: Step)
    requires Inv(setup, s) && Enabled(setup, s, step)
    ensures Inv(setup, Apply(setup, s, step))
  {
    match step
    case Submit(job, profile, woken) => SubmitInv(setup, s, job, profile, woken);
    case Start => StartInv(setup, s);
    case Stop => StopInv(setup, s);
    case Block(w) =>
      var k := FirstStuck(s.records, s.queue);
      BlockInv(setup, s, k, GateOf(s.records, s.queue[k].job.dependsOn).reason);
    case Refuse(w, k) => BlockInv(setup, s, k, OutputsNotEncodable);
    case Dispatch(w, k) => DispatchInv(setup, s, w, k);
    case Sleep(w) => SleepInv(setup, s, w);
    case Exit(w) => ExitInv(setup, s, w);
    case Finish(w) => FinishInv(setup, s, w);
    case Done(w) => DoneInv(setup, s, w);
  }

  lemma {:induction false} RunInv(setup: Setup, s: State, steps: seq<Step>)
    requires Inv(setup, s) && CanRun(setup, s, steps)
    ensures Inv(setup, RunFrom(setup, s, steps))
    decreases |steps|
  {
    if steps != [] {
      StepInv(setup, s, steps[0]);
      RunInv(setup, Apply(setup, s, steps[0]), steps[1..]);
    }
  }

  /** The invariant holds in every reachable state. */
  lemma {:induction false} ReachableInv(setup: Setup, s: State)
    requires ValidSetup(setup) && Reachable(setup, s)
    ensures Inv(setup, s)
  {
    var steps :| CanRun(setup, Initial, steps) && RunFrom(setup, Initial, steps) == s;
    InitialInv(setup);
    RunInv(setup, Initial, steps);
  }
}
