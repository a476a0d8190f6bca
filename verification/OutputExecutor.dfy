/** Running one agent inside an output transaction. */
module OutputExecutor {
  import opened Sums
  import opened Text
  import opened Paths
  import opened OutputTree
  import opened Outputs
  import opened OutputRoundTrip
  import opened OutputManager
  import OutputShape

  datatype OutputState = NoOutputYet | InProgress | Committed | Discarded | Retained

  datatype Retention = DiscardOnFailure | RetainOnFailure

  datatype Cause = AgentFailed(message: string) | CommitRejected(error: CommitError)

  datatype RunError = CannotBegin(begin: BeginError) | Unfinished(cause: Cause, abort: Option<CommitError>)

  const TRANSACTION_ID := "AEGIS_OUTPUT_TRANSACTION_ID"
  const STAGING_PATH := "AEGIS_OUTPUT_STAGING"

  /** What an agent leaves in its staging directory, by path relative to it. */
  ghost predicate LeftBehind(left: Tree) {
    && (forall p | p in left :: p != [] && IsNames(p))
    && (forall p, i | p in left && 0 < i < |p| :: IsDir(left, p[..i]))
  }

  function Placed(dir: Path, left: Tree): Tree {
    var paths := set p | p in left :: dir + p;
    map p | p in paths && dir <= p && p[|dir|..] in left :: left[p[|dir|..]]
  }

  /** The output fields of the agent control block. */
  class ControlBlock {
    const id: string
    var state: OutputState
    var transactionID: string
    var stagingPath: Path
    var commitPath: Path
    var manifestPath: Path
    var committed: bool
    var retained: bool
    var fileCount: int
    var bytes: nat
    var error: Option<Cause>
    var environment: map<string, string>

    constructor (agentID: string)
      ensures id == agentID && state == NoOutputYet && !committed
    {
      id := agentID;
      state, committed, retained := NoOutputYet, false, false;
      transactionID, stagingPath, commitPath, manifestPath := "", [], [], [];
      fileCount, bytes, error, environment := 0, 0, None, map[];
    }

    /** Committed output is announced exactly in the committed state, and then nothing else is wrong. */
    predicate Consistent()
      reads this
    {
      && (committed <==> state == Committed)
      && (committed ==> retained && error == None)
      && (state == Discarded ==> !retained && error.Some?)
      && (state == Retained ==> retained && error.Some?)
    }

    /** dependencyOutputFromACB. */
    function Exported(): DependencyOutput
      reads this
    {
      DependencyOutput(id, transactionID, commitPath, manifestPath, fileCount, bytes)
    }
  }

  /** The tree when the agent returns; an agent can also have removed its staging directory. */
  function Worked(before: Tree, left: Option<Tree>, t: Transaction): Tree {
    if left.Some? then before[t.staging := Dir] + Placed(t.staging, left.value) else before
  }

  /** A run that committed: the agent worked in a fresh staging directory, and that was published. */
  ghost predicate Ran(c: Codec, limits: Limits, before: Tree, left: Option<Tree>, t: Transaction, later: int,
                      files: seq<FileRecord>, after: Tree) {
    t.staging !in before && Begun(t) && Commits(c, limits, Worked(before, left, t), t, later, files, after)
  }

  class Executor {
    const outputs: Manager
    const retention: Retention

    constructor (m: Manager, r: Retention)
      ensures outputs == m && retention == r
    {
      outputs := m;
      retention := r;
    }

    /** finishFailure: unless the output is retained it is discarded, and a failure to do so is reported too. */
    method FinishFailure(acb: ControlBlock, t: Transaction, cause: Cause) returns (failure: RunError)
      requires WellFormed(outputs.fs)
      modifies acb, outputs
      ensures failure.Unfinished? && failure.cause == cause
      ensures failure.abort.None? <==> retention == RetainOnFailure || ValidTransaction(old(outputs.fs), t)
      ensures acb.transactionID == old(acb.transactionID) && acb.stagingPath == old(acb.stagingPath)
      ensures outputs.fs == if retention == DiscardOnFailure && ValidTransaction(old(outputs.fs), t)
                            then RemovedAll(old(outputs.fs), t.staging) else old(outputs.fs)
      ensures Reported(acb, failure, retention, outputs.fs, t)
      ensures WellFormed(outputs.fs)
    {
      acb.error, acb.committed := Some(cause), false;
      if retention == RetainOnFailure {
        acb.state, acb.retained := Retained, true;
        return Unfinished(cause, None);
      }
      var fault := outputs.Abort(t);
      acb.state, acb.retained := Discarded, false;
      return Unfinished(cause, fault);
    }

    /** The assignments of Run before the agent starts. */
    method Start(acb: ControlBlock, t: Transaction)
      modifies acb
      ensures acb.state == InProgress && acb.transactionID == t.id && acb.stagingPath == t.staging
      ensures !acb.committed && acb.retained && acb.error == None
      ensures acb.commitPath == [] && acb.manifestPath == [] && acb.fileCount == 0 && acb.bytes == 0
      ensures acb.environment.Keys == old(acb.environment.Keys) + {TRANSACTION_ID, STAGING_PATH}
      ensures acb.environment[TRANSACTION_ID] == t.id && acb.environment[STAGING_PATH] == Join(t.staging)
      ensures forall v | v in old(acb.environment) && v != TRANSACTION_ID && v != STAGING_PATH ::
        acb.environment[v] == old(acb.environment[v])
    {
      acb.state, acb.transactionID, acb.stagingPath := InProgress, t.id, t.staging;
      acb.commitPath, acb.manifestPath, acb.committed, acb.retained := [], [], false, true;
      acb.fileCount, acb.bytes, acb.error := 0, 0, None;
      assert TRANSACTION_ID != STAGING_PATH by { assert TRANSACTION_ID[13] != STAGING_PATH[13]; }
      acb.environment := acb.environment[TRANSACTION_ID := t.id];
      acb.environment := acb.environment[STAGING_PATH := Join(t.staging)];
    }

    /** The assignments of Run after a commit. */
    method Finish(acb: ControlBlock, result: CommitResult)
      modifies acb
      ensures acb.state == Committed && acb.Consistent()
      ensures acb.transactionID == old(acb.transactionID)
      ensures acb.transactionID == result.transactionID ==> acb.Exported() == OutputOf(acb.id, result)
    {
      acb.state, acb.commitPath, acb.manifestPath := Committed, result.final, result.manifestPath;
      acb.committed, acb.retained := true, true;
      acb.fileCount, acb.bytes, acb.error := result.fileCount, result.totalBytes, None;
    }

    /** Run from the agent's return on. */
    method Conclude(acb: ControlBlock, t: Transaction, problem: Option<string>, later: int)
      returns (failure: Option<RunError>)
      requires WellFormed(outputs.fs) && outputs.limits.maxFiles >= 0
      requires Begun(t) && acb.transactionID == t.id
      modifies acb, outputs
      ensures WellFormed(outputs.fs) && acb.Consistent() && acb.transactionID == t.id
      ensures failure.None? <==> problem.None? && CanCommit(outputs.limits, old(outputs.fs), t)
      ensures failure.None? ==> acb.state == Committed && exists files ::
        && Commits(outputs.codec, outputs.limits, old(outputs.fs), t, later, files, outputs.fs)
        && acb.Exported() == OutputOf(acb.id, ResultOf(t, files))
      ensures failure.Some? ==> Reported(acb, failure.value, retention, outputs.fs, t)
      ensures failure.Some? ==> SameOutside(old(outputs.fs), outputs.fs, t.staging)
      ensures failure.Some? ==>
        (failure.value.abort.None? <==> retention == RetainOnFailure || ValidTransaction(old(outputs.fs), t))
      ensures failure.Some? && retention == RetainOnFailure && ValidTransaction(old(outputs.fs), t) ==>
        IsDir(outputs.fs, t.staging)
    {
      if problem.Some? {
        var unfinished := FinishFailure(acb, t, AgentFailed(problem.value));
        return Some(unfinished);
      }
      ghost var before := outputs.fs;
      var result := outputs.Commit(t, later);
      if result.Ok? {
        Finish(acb, result.value);
        return None;
      }
      if ValidTransaction(before, t) { StillValid(before, outputs.fs, t); }
      var failed := FinishFailure(acb, t, CommitRejected(result.error));
      return Some(failed);
    }

    /** Run: left and problem are what the wrapped executor does and returns. */
    method Run(acb: ControlBlock, left: Option<Tree>, problem: Option<string>, stamps: seq<Stamp>, now: int, later: int)
      returns (failure: Option<RunError>, ghost t: Transaction)
      requires WellFormed(outputs.fs) && outputs.limits.maxFiles >= 0 && (left.Some? ==> LeftBehind(left.value))
      requires |stamps| == ATTEMPTS && forall i | 0 <= i < ATTEMPTS :: IsStamp(stamps[i])
      modifies acb, outputs
      ensures WellFormed(outputs.fs)
      ensures failure.Some? && failure.value.CannotBegin? ==>
        outputs.fs == old(outputs.fs) && acb.state == old(acb.state) && acb.committed == old(acb.committed)
      ensures !(failure.Some? && failure.value.CannotBegin?) ==>
        && acb.Consistent() && acb.transactionID == t.id
        && Begun(t) && t.staging !in old(outputs.fs) && t.agentID == acb.id && t.createdAt == now
        && (failure.None? <==> problem.None? && CanCommit(outputs.limits, Worked(old(outputs.fs), left, t), t))
      ensures failure.None? ==> acb.state == Committed && exists files ::
        && Ran(outputs.codec, outputs.limits, old(outputs.fs), left, t, later, files, outputs.fs)
        && acb.Exported() == OutputOf(acb.id, ResultOf(t, files))
      ensures failure.Some? && failure.value.Unfinished? ==>
        && Reported(acb, failure.value, retention, outputs.fs, t)
        && SameOutside(old(outputs.fs), outputs.fs, t.staging)
        && (failure.value.abort.None? <==> retention == RetainOnFailure || left.Some?)
        && (retention == RetainOnFailure && left.Some? ==> IsDir(outputs.fs, t.staging))
    {
      var begun := outputs.Begin(acb.id, stamps, now);
      if begun.Err? {
        t := NewTransaction("", "", 0);
        return Some(CannotBegin(begin := begun.error)), t;
      }
      var txn := begun.value;
      t := txn;
      Start(acb, txn);
      ghost var before := old(outputs.fs);
      WorkedShape(before, left, txn);
      RemovedAgain(before, txn);
      outputs.fs :=
        if left.Some? then outputs.fs + Placed(txn.staging, left.value) else RemovedAll(outputs.fs, txn.staging);
      failure := Conclude(acb, txn, problem, later);
      if failure.Some? { SameTwice(before, Worked(before, left, txn), outputs.fs, txn.staging); }
    }
  }

  /** How a run that did not commit leaves the control block and the staging directory. */
  ghost predicate Reported(acb: ControlBlock, failure: RunError, retention: Retention, fs: Tree, t: Transaction)
    reads acb
  {
    && failure.Unfinished?
    && acb.error == Some(failure.cause) && !acb.committed
    && (retention == RetainOnFailure ==> acb.state == Retained && acb.retained && failure.abort.None?)
    && (retention == DiscardOnFailure ==> acb.state == Discarded && !acb.retained)
    && (retention == DiscardOnFailure && failure.abort.None? ==> forall p | p in fs :: !(t.staging <= p))
  }

  lemma {:induction false} StillValid(before: Tree, after: Tree, t: Transaction)
    requires ValidTransaction(before, t) && KeepsData(before, after, t.staging)
    ensures ValidTransaction(after, t)
  {}

  /** Nothing that was outside dir is lost or changed. */
  ghost predicate SameOutside(before: Tree, after: Tree, dir: Path) {
    forall p | p in before && !(dir <= p) :: p in after && after[p] == before[p]
  }

  lemma {:induction false} PlacedAt(dir: Path, left: Tree, q: Path)
    ensures dir + q in Placed(dir, left) <==> q in left
    ensures q in left ==> Placed(dir, left)[dir + q] == left[q]
  {
    assert (dir + q)[|dir|..] == q;
  }

  lemma {:induction false} WorkedNames(before: Tree, left: Tree, t: Transaction, p: Path)
    requires WellFormed(before[t.staging := Dir]) && LeftBehind(left) && p in Worked(before, Some(left), t)
    ensures p != [] && IsNames(p)
  {
    if p in Placed(t.staging, left) {
      var q := p[|t.staging|..];
      assert t.staging + q == p && IsNames(q) && IsNames(t.staging);
    }
  }

  lemma {:induction false} WorkedParents(before: Tree, left: Tree, t: Transaction, p: Path, i: nat)
    requires WellFormed(before[t.staging := Dir]) && LeftBehind(left) && t.staging !in before && |t.staging| == 2
    requires forall q | q in before :: !(t.staging <= q)
    requires p in Worked(before, Some(left), t) && 0 < i < |p|
    ensures IsDir(Worked(before, Some(left), t), p[..i])
  {
    var staged := before[t.staging := Dir];
    if p in Placed(t.staging, left) {
      var q := p[|t.staging|..];
      assert t.staging + q == p;
      if i <= 2 {
        assert p[..i] == t.staging[..i];
        assert i == 2 ==> p[..i] == t.staging;
        assert IsDir(staged, p[..i]);
        assert !(t.staging + [q[0]] <= p[..i]);
        NotPlaced(t.staging, left, p[..i]);
      } else {
        assert p[..i] == t.staging + q[..i - 2];
        assert IsDir(left, q[..i - 2]);
        PlacedAt(t.staging, left, q[..i - 2]);
      }
    } else {
      assert IsDir(staged, p[..i]);
      NotPlaced(t.staging, left, p[..i]);
      assert t.staging < p[..i] ==> t.staging <= p;
    }
  }

  lemma {:induction false} NotPlaced(dir: Path, left: Tree, p: Path)
    requires LeftBehind(left)
    ensures p in Placed(dir, left) ==> dir < p
  {}

  lemma {:induction false} WorkedKeeps(before: Tree, left: Tree, t: Transaction)
    requires WellFormed(before) && Begun(t) && t.staging !in before && LeftBehind(left)
    ensures WellFormed(Worked(before, Some(left), t)) && ValidTransaction(Worked(before, Some(left), t), t)
    ensures SameOutside(before, Worked(before, Some(left), t), t.staging)
  {
    var worked := Worked(before, Some(left), t);
    OutputShape.BegunWellFormed(before, t.id);
    NothingBelow(before, t.staging);
    BegunPaths(t);
    forall p | p in worked ensures p != [] && IsNames(p) {
      WorkedNames(before, left, t, p);
    }
    forall p, i | p in worked && 0 < i < |p| ensures IsDir(worked, p[..i]) {
      WorkedParents(before, left, t, p, i);
    }
    forall p | p in before ensures p in worked && worked[p] == before[p] {
      NotPlaced(t.staging, left, p);
    }
    NotPlaced(t.staging, left, t.staging);
    NotPlaced(t.staging, left, [STAGING]);
    NotPlaced(t.staging, left, [COMMITTED]);
  }

  lemma {:induction false} SameTwice(before: Tree, worked: Tree, after: Tree, dir: Path)
    requires SameOutside(before, worked, dir) && SameOutside(worked, after, dir)
    ensures SameOutside(before, after, dir)
  {}

  lemma {:induction false} WorkedShape(before: Tree, left: Option<Tree>, t: Transaction)
    requires WellFormed(before) && Begun(t) && t.staging !in before && (left.Some? ==> LeftBehind(left.value))
    ensures WellFormed(Worked(before, left, t))
    ensures ValidTransaction(Worked(before, left, t), t) <==> left.Some?
    ensures SameOutside(before, Worked(before, left, t), t.staging)
  {
    if left.Some? {
      WorkedKeeps(before, left.value, t);
    }
  }

  lemma {:induction false} RemovedAgain(before: Tree, t: Transaction)
    requires WellFormed(before) && Begun(t) && t.staging !in before
    ensures RemovedAll(before[t.staging := Dir], t.staging) == before
  {
    NothingBelow(before, t.staging);
  }

  /** The output that a successful run leaves in its control block, as its dependants will read it, verifies
      exactly if the manifest fits its cap and no path the agent chose begins or ends with white space or is not
      valid UTF-8. */
  lemma {:induction false} RunOutputVerifies(c: Codec, limits: Limits, before: Tree, left: Option<Tree>, t: Transaction,
                                             later: int, files: seq<FileRecord>, after: Tree)
    requires Sound(c) && WellFormed(before) && (left.Some? ==> LeftBehind(left.value)) && limits.maxBytes < TWO_64
    requires Ran(c, limits, before, left, t, later, files, after) && t.createdAt != 0 && later != 0
    ensures Accepts(c, after, OutputOf(t.agentID, ResultOf(t, files))) <==>
      && |c.encode(ManifestOf(t, later, files))| <= MANIFEST_CAP
      && PathsTrimmed(Worked(before, left, t), t.staging)
      && PathsLegible(c, Worked(before, left, t), t.staging)
  {
    WorkedShape(before, left, t);
    CommitVerifies(c, limits, Worked(before, left, t), t, later, files);
  }
}
