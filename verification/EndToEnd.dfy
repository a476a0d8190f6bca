/** The scheduler and the output store side by side: whatever a dependency's verifier accepted is still there,
    and still verifies, when a dependent agent is dispatched and ever after. */
module EndToEnd {
  import opened Outputs
  import M = SchedulerModel
  import I = SchedulerInvariants
  import R = OutputRuns

  /** A run of the scheduler with all its states. */
  ghost predicate Trace(setup: M.Setup, ss: seq<M.State>, moves: seq<M.Step>) {
    && |ss| == |moves| + 1 && ss[0] == M.Initial
    && forall n | 0 <= n < |moves| :: M.Enabled(setup, ss[n], moves[n]) && ss[n + 1] == M.Apply(setup, ss[n], moves[n])
  }

  /** What an agent reports as committed was committed by its transaction before store state k, and the verifier's
      verdict on it is that of the store in state k. */
  ghost predicate JudgedAt(setup: M.Setup, g: R.Setting, states: seq<R.Store>, steps: seq<R.Step>, id: string, k: nat)
    requires |states| == |steps| + 1 && k < |states|
  {
    var report := setup.run(id);
    report.error.None? && report.output.committed ==>
      && (exists i | 0 <= i < k :: CommittedBy(steps[i], id, report.output.artifacts))
      && (setup.verify(id).Accepted? <==> Accepts(g.codec, states[k].fs, OutputOf(id, report.output.artifacts)))
  }

  predicate CommittedBy(step: R.Step, id: string, artifacts: CommitResult) {
    step.Commit? && step.t.agentID == id && artifacts == ResultOf(step.t, step.files)
  }

  /** clock[n] is the state of the store when the scheduler is in ss[n]; an agent is judged as it finishes. */
  ghost predicate Joint(setup: M.Setup, g: R.Setting, ss: seq<M.State>, moves: seq<M.Step>,
                        states: seq<R.Store>, steps: seq<R.Step>, clock: seq<nat>) {
    && Trace(setup, ss, moves) && R.Run(g, states, steps)
    && |clock| == |ss| && (forall n | 0 <= n < |clock| :: clock[n] < |states|)
    && (forall n | 0 <= n < |moves| :: clock[n] <= clock[n + 1])
    && (forall n | 0 <= n < |moves| && moves[n].Finish? ::
      JudgedAt(setup, g, states, steps, ss[n].workers[moves[n].w].entry.job.id, clock[n]))
  }

  /** The record says what its agent reported; that output lies in a committed directory, and verifies. */
  ghost predicate Stands(setup: M.Setup, g: R.Setting, store: R.Store, id: string, r: M.Record) {
    && r.id == id && r.output.artifacts == setup.run(id).output.artifacts
    && (exists t :: t in store.committed && t.final == r.output.artifacts.final)
    && Accepts(g.codec, store.fs, OutputOf(id, r.output.artifacts))
  }

  ghost predicate AllStand(setup: M.Setup, g: R.Setting, store: R.Store, records: map<string, M.Record>) {
    forall id | id in records && M.Good(records[id]) :: Stands(setup, g, store, id, records[id])
  }

  lemma {:induction false} StandsLater(setup: M.Setup, g: R.Setting, states: seq<R.Store>, steps: seq<R.Step>,
                                       i: nat, j: nat, id: string, r: M.Record)
    requires R.Run(g, states, steps) && i <= j < |states| && Stands(setup, g, states[i], id, r)
    ensures Stands(setup, g, states[j], id, r)
  {
    var t :| t in states[i].committed && t.final == r.output.artifacts.final;
    R.PublishedForever(g, states, steps, i, j, t);
    R.VerifiedForever(g, states, steps, i, j, t, OutputOf(id, r.output.artifacts));
  }

  /** A step makes no record good except the one it finishes. */
  lemma {:induction false} GoodAfter(setup: M.Setup, s: M.State, step: M.Step, id: string)
    requires M.Enabled(setup, s, step)
    requires id in M.Apply(setup, s, step).records && M.Good(M.Apply(setup, s, step).records[id])
    ensures var r := M.Apply(setup, s, step).records[id];
      || (id in s.records && s.records[id] == r)
      || (&& step.Finish? && id == s.workers[step.w].entry.job.id
          && r == M.FinishedRecord(s.workers[step.w].entry.job, r.dependencyOutputs, r.workerID, M.Settled(setup, id)))
  {}

  /** A job that finished well was reported committed and was accepted. */
  lemma {:induction false} FinishedWell(setup: M.Setup, job: M.Job, outputs: map<string, M.HandedOutput>, workerID: nat)
    requires M.Good(M.FinishedRecord(job, outputs, workerID, M.Settled(setup, job.id)))
    ensures var report := setup.run(job.id);
      && report.error.None? && report.output.committed && setup.verify(job.id).Accepted?
      && var r := M.FinishedRecord(job, outputs, workerID, M.Settled(setup, job.id));
      r.id == job.id && r.output.artifacts == report.output.artifacts
  {}

  lemma {:induction false} JudgedStands(setup: M.Setup, g: R.Setting, states: seq<R.Store>, steps: seq<R.Step>,
                                        id: string, k: nat, r: M.Record)
    requires R.Run(g, states, steps) && k < |states| && JudgedAt(setup, g, states, steps, id, k)
    requires setup.run(id).error.None? && setup.run(id).output.committed && setup.verify(id).Accepted?
    requires r.id == id && r.output.artifacts == setup.run(id).output.artifacts
    ensures Stands(setup, g, states[k], id, r)
  {
    var i :| 0 <= i < k && CommittedBy(steps[i], id, r.output.artifacts);
    var t := steps[i].t;
    R.RunInv(g, states, steps, i);
    assert R.Next(g, states[i], steps[i], states[i + 1]);
    R.StepHistory(g, states[i], steps[i], states[i + 1]);
    R.HistoryGrows(g, states, steps, i + 1, k);
    assert t in states[k].committed && t.final == r.output.artifacts.final;
  }

  lemma {:induction false} MoveStands(setup: M.Setup, g: R.Setting, ss: seq<M.State>, moves: seq<M.Step>,
                                      states: seq<R.Store>, steps: seq<R.Step>, clock: seq<nat>, n: nat, id: string)
    requires Joint(setup, g, ss, moves, states, steps, clock) && n < |moves|
    requires AllStand(setup, g, states[clock[n]], ss[n].records)
    requires id in ss[n + 1].records && M.Good(ss[n + 1].records[id])
    ensures Stands(setup, g, states[clock[n + 1]], id, ss[n + 1].records[id])
  {
    var s, move, r := ss[n], moves[n], ss[n + 1].records[id];
    GoodAfter(setup, s, move, id);
    if id in s.records && s.records[id] == r {
      assert Stands(setup, g, states[clock[n]], id, r);
    } else {
      FinishedWell(setup, s.workers[move.w].entry.job, r.dependencyOutputs, r.workerID);
      JudgedStands(setup, g, states, steps, id, clock[n], r);
    }
    StandsLater(setup, g, states, steps, clock[n], clock[n + 1], id, r);
  }

  /** The outputs of all good records stand, at every moment of the run. */
  lemma {:induction false} GoodRecordsStand(setup: M.Setup, g: R.Setting, ss: seq<M.State>, moves: seq<M.Step>,
                                            states: seq<R.Store>, steps: seq<R.Step>, clock: seq<nat>, n: nat)
    requires Joint(setup, g, ss, moves, states, steps, clock) && n < |ss|
    ensures AllStand(setup, g, states[clock[n]], ss[n].records)
  {
    if n > 0 {
      GoodRecordsStand(setup, g, ss, moves, states, steps, clock, n - 1);
      forall id | id in ss[n].records && M.Good(ss[n].records[id])
        ensures Stands(setup, g, states[clock[n]], id, ss[n].records[id])
      {
        MoveStands(setup, g, ss, moves, states, steps, clock, n - 1, id);
      }
    }
  }

  /** When an agent is dispatched it is handed, for each of its dependencies, the output that dependency reported,
      and from then on that output verifies at every moment. */
  lemma {:induction false} DispatchedOutputsVerify(setup: M.Setup, g: R.Setting, ss: seq<M.State>, moves: seq<M.Step>,
                                                   states: seq<R.Store>, steps: seq<R.Step>, clock: seq<nat>,
                                                   n: nat, d: string, j: nat)
    requires Joint(setup, g, ss, moves, states, steps, clock) && n < |moves| && moves[n].Dispatch?
    requires d in ss[n].queue[moves[n].k].job.dependsOn && clock[n] <= j < |states|
    ensures var id, output := ss[n].queue[moves[n].k].job.id, OutputOf(d, setup.run(d).output.artifacts);
      && id in ss[n + 1].records && d in ss[n + 1].records[id].dependencyOutputs
      && ss[n + 1].records[id].dependencyOutputs[d].output == output
      && Accepts(g.codec, states[j].fs, output)
  {
    var entry := ss[n].queue[moves[n].k];
    I.GateReadyIff(ss[n].records, entry.job.dependsOn);
    GoodRecordsStand(setup, g, ss, moves, states, steps, clock, n);
    StandsLater(setup, g, states, steps, clock[n], j, d, ss[n].records[d]);
    assert ss[n + 1] == M.AfterDispatch(ss[n], moves[n].w, moves[n].k);
  }
}
