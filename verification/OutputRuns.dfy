/** Many transactions at once: agents write, and Begin, Commit and Abort interleave in any order. */
module OutputRuns {
  import opened Digests
  import opened Sums
  import opened Paths
  import opened OutputTree
  import opened Outputs
  import opened OutputIntegrity
  import opened OutputRoundTrip
  import opened OutputShape
  import opened OutputManager

  /** The tree, and which transactions have been begun, committed and aborted so far. */
  datatype Store = Store(fs: Tree, begun: set<Transaction>, committed: set<Transaction>, aborted: set<Transaction>)

  /** The steps name what the class methods of Manager report; the relation below is their contracts. */
  datatype Step =
    | Begin(t: Transaction)
    | Write(t: Transaction)
    | Commit(t: Transaction, now: int, files: seq<FileRecord>)
    | CommitFails(t: Transaction)
    | Abort(t: Transaction)
    | AbortFails(t: Transaction)

  datatype Setting = Setting(codec: Codec, limits: Limits)

  /** An agent changes nothing but the contents of its own staging directory. */
  ghost predicate WritesInside(before: Tree, after: Tree, dir: Path) {
    && WellFormed(after)
    && forall p | !(dir < p) :: (p in before <==> p in after) && (p in before ==> before[p] == after[p])
  }

  ghost predicate Next(g: Setting, s: Store, step: Step, s': Store) {
    match step
    case Begin(t) =>
      Begun(t) && Generated(t) && t.staging !in s.fs &&
      s' == s.(fs := s.fs[t.staging := Dir], begun := s.begun + {t})
    case Write(t) =>
      t in s.begun && IsDir(s.fs, t.staging) && WritesInside(s.fs, s'.fs, t.staging) && s' == s.(fs := s'.fs)
    case Commit(t, now, files) =>
      t in s.begun && Commits(g.codec, g.limits, s.fs, t, now, files, s'.fs) &&
      s' == s.(fs := s'.fs, committed := s.committed + {t})
    case CommitFails(t) =>
      && t in s.begun && !CanCommit(g.limits, s.fs, t)
      && OnlyInside(s.fs, s'.fs, t.staging, t.final) && KeepsData(s.fs, s'.fs, t.staging)
      && (!ValidTransaction(s.fs, t) ==> s'.fs == s.fs)
      && WellFormed(s'.fs)
      && s' == s.(fs := s'.fs)
    case Abort(t) =>
      t in s.begun && ValidTransaction(s.fs, t) &&
      s' == s.(fs := RemovedAll(s.fs, t.staging), aborted := s.aborted + {t})
    case AbortFails(t) =>
      t in s.begun && !ValidTransaction(s.fs, t) && s' == s
  }

  /** Open on an empty root. */
  const EMPTY: Store := Store(map[[STAGING] := Dir, [COMMITTED] := Dir], {}, {}, {})

  ghost predicate Run(g: Setting, states: seq<Store>, steps: seq<Step>) {
    && |states| == |steps| + 1 && states[0] == EMPTY
    && forall i | 0 <= i < |steps| :: Next(g, states[i], steps[i], states[i + 1])
  }

  lemma {:induction false} RunMore(g: Setting, states: seq<Store>, steps: seq<Step>, step: Step, s': Store)
    requires Run(g, states, steps) && Next(g, states[|steps|], step, s')
    ensures Run(g, states + [s'], steps + [step])
  {
    var more, longer := states + [s'], steps + [step];
    forall i | 0 <= i < |longer| ensures Next(g, more[i], longer[i], more[i + 1]) {
      if i < |steps| { assert Next(g, states[i], steps[i], states[i + 1]); }
    }
  }

  // ---------------------------------------------------------------- what every step keeps

  ghost predicate Inv(s: Store) {
    && WellFormed(s.fs)
    && (forall t | t in s.begun :: Begun(t) && Generated(t))
    && s.committed <= s.begun && s.aborted <= s.begun
    && (forall t | t in s.committed :: IsDir(s.fs, t.final))
  }

  /** No two transactions are ever given the same identifier. */
  ghost predicate Fresh(s: Store, step: Step) {
    step.Begin? ==> forall u | u in s.begun :: u.id != step.t.id
  }

  ghost predicate FreshRun(states: seq<Store>, steps: seq<Step>)
    requires |states| == |steps| + 1
  {
    forall i | 0 <= i < |steps| :: Fresh(states[i], steps[i])
  }

  datatype Phase = InStaging | InPlace | Gone

  /** Where a transaction is, according to the history. */
  function PhaseOf(s: Store, t: Transaction): Phase {
    if t in s.committed then InPlace else if t in s.aborted then Gone else InStaging
  }

  /** ... and what the tree must then show. */
  ghost predicate Shows(s: Store, t: Transaction) {
    && (t.staging in s.fs <==> PhaseOf(s, t).InStaging?)
    && (t.final in s.fs <==> PhaseOf(s, t).InPlace?)
    && !(t in s.committed && t in s.aborted)
    && (PhaseOf(s, t).InStaging? ==> IsDir(s.fs, t.staging))
  }

  ghost predicate OnePlaceEach(s: Store) {
    forall t | t in s.begun :: Shows(s, t)
  }

  ghost predicate Exclusive(s: Store) {
    && OnePlaceEach(s)
    && (forall t, u | t in s.begun && u in s.begun && t.id == u.id :: t == u)
    && (forall p | p in s.fs && |p| == 3 && p[0] == COMMITTED :: PublishedAt(s, p))
  }

  ghost predicate PublishedAt(s: Store, p: Path) {
    exists t :: t in s.committed && t.final == p
  }

  // ---------------------------------------------------------------- how steps affect other directories

  lemma {:induction false} Separate(t: Transaction, u: Transaction, p: Path)
    requires Begun(t) && Begun(u)
    ensures t.staging <= p ==> !(u.final <= p) && (p <= u.final ==> p == [])
    ensures t.staging <= p && t.id != u.id ==> !(u.staging <= p)
    ensures t.final <= p && t.final != u.final ==> !(u.final <= p)
    ensures u.final <= p ==> |p| >= 3
    ensures p < u.final ==> |p| <= 2
  {
    assert t.staging[0] == STAGING && u.final[0] == COMMITTED && STAGING[0] != COMMITTED[0];
    if t.staging <= p { assert p[0] == STAGING && p[1] == t.id; }
    if u.staging <= p { assert p[1] == u.id; }
    if t.final <= p && u.final <= p {
      assert p[..3] == t.final && p[..3] == u.final;
    }
  }

  lemma {:induction false} StagingIsNotFinal(t: Transaction)
    requires Begun(t)
    ensures !(t.staging <= t.final) && !(t.final <= t.staging)
  {
    BegunPaths(t);
  }

  lemma {:induction false} CommitKeeps(g: Setting, s: Store, t: Transaction, bytes: Bytes, p: Path)
    requires Inv(s) && t in s.begun && t.final !in s.fs && p != []
    ensures p in s.fs && !(t.staging <= p) ==>
      p in Published(s.fs, t, bytes) && Published(s.fs, t, bytes)[p] == s.fs[p]
    ensures p !in s.fs && p in Published(s.fs, t, bytes) ==> t.final <= p || (p < t.final && !(t.staging <= p))
    ensures t.staging <= p ==> p !in Published(s.fs, t, bytes)
  {
    StagingIsNotFinal(t);
    NothingBelow(s.fs, t.final);
    if !(t.final <= p) {
      PublishedElsewhere(s.fs, t, bytes, p);
    } else {
      Separate(t, t, p);
    }
  }

  /** Entries outside the acting transaction's staging directory stay as they are ... */
  lemma {:induction false} StepKeeps(g: Setting, s: Store, step: Step, s': Store, p: Path)
    requires Inv(s) && Next(g, s, step, s') && p in s.fs && !(step.t.staging <= p)
    ensures p in s'.fs && s'.fs[p] == s.fs[p]
  {
    match step {
      case Begin(t) =>
      case Write(t) =>
      case Commit(t, now, files) => CommitKeeps(g, s, t, g.codec.encode(ManifestOf(t, now, files)), p);
      case CommitFails(t) =>
      case Abort(t) =>
      case AbortFails(t) =>
    }
  }

  /** ... and new ones appear only there, below the directory it publishes, or as that directory's parents. */
  lemma {:induction false} StepAdds(g: Setting, s: Store, step: Step, s': Store, p: Path)
    requires Inv(s) && Next(g, s, step, s') && p !in s.fs && p in s'.fs && p != []
    ensures step.t.staging <= p || (step.Commit? && step.t.final <= p) || p < step.t.final
  {
    match step {
      case Begin(t) =>
      case Write(t) =>
      case Commit(t, now, files) => CommitKeeps(g, s, t, g.codec.encode(ManifestOf(t, now, files)), p);
      case CommitFails(t) =>
      case Abort(t) =>
      case AbortFails(t) =>
    }
  }

  lemma {:induction false} StepWellFormed(g: Setting, s: Store, step: Step, s': Store)
    requires Inv(s) && Next(g, s, step, s')
    ensures WellFormed(s'.fs)
  {
    match step {
      case Begin(t) => BegunWellFormed(s.fs, t.id);
      case Write(t) =>
      case Commit(t, now, files) => PublishedWellFormed(s.fs, t, g.codec.encode(ManifestOf(t, now, files)));
      case CommitFails(t) =>
      case Abort(t) => RemovedWellFormed(s.fs, t.staging);
      case AbortFails(t) =>
    }
  }

  /** A step leaves a directory that is already published exactly as it is. */
  lemma {:induction false} StepKeepsPublished(g: Setting, s: Store, step: Step, s': Store, t: Transaction, p: Path)
    requires Inv(s) && Next(g, s, step, s') && t in s.committed
    requires p <= t.final || t.final <= p
    ensures p in s.fs <==> p in s'.fs
    ensures p in s.fs ==> s'.fs[p] == s.fs[p]
  {
    StepWellFormed(g, s, step, s');
    if p != [] {
      if p <= t.final && p != t.final { PrefixDir(s.fs, t.final, p); }
      StagingIsNotFinal(t);
      Separate(step.t, t, p);
      Separate(t, step.t, p);
      if p in s.fs {
        StepKeeps(g, s, step, s', p);
      } else if p in s'.fs {
        StepAdds(g, s, step, s', p);
      }
    }
  }

  /** The bookkeeping part of a step. */
  lemma {:induction false} StepHistory(g: Setting, s: Store, step: Step, s': Store)
    requires Inv(s) && Next(g, s, step, s')
    ensures s'.begun == s.begun + (if step.Begin? then {step.t} else {})
    ensures s'.committed == s.committed + (if step.Commit? then {step.t} else {})
    ensures s'.aborted == s.aborted + (if step.Abort? then {step.t} else {})
    ensures Begun(step.t) && (!step.Begin? ==> step.t in s.begun)
  {}

  function BytesOf(g: Setting, step: Step): Bytes
    requires step.Commit?
  {
    g.codec.encode(ManifestOf(step.t, step.now, step.files))
  }

  lemma {:induction false} CommitStep(g: Setting, s: Store, step: Step, s': Store)
    requires Inv(s) && Next(g, s, step, s') && step.Commit?
    ensures Begun(step.t) && s'.fs == Published(s.fs, step.t, BytesOf(g, step))
    ensures IsDir(s.fs, step.t.staging) && CanMakeAll(s.fs, Parent(step.t.final)) && step.t.final !in s.fs
    ensures WithinLimits(g.limits, s.fs, step.t.staging)
  {}

  lemma {:induction false} CommitPublishes(g: Setting, s: Store, step: Step, s': Store)
    requires Inv(s) && Next(g, s, step, s') && step.Commit?
    ensures IsDir(s'.fs, step.t.final)
  {
    CommitStep(g, s, step, s');
    PublishedPlain(s.fs, step.t, BytesOf(g, step));
  }

  lemma {:induction false} StepCommitted(g: Setting, s: Store, step: Step, s': Store, u: Transaction)
    requires Inv(s) && Next(g, s, step, s') && u in s'.committed
    ensures IsDir(s'.fs, u.final)
  {
    StepHistory(g, s, step, s');
    if u in s.committed {
      StepKeepsPublished(g, s, step, s', u, u.final);
    } else {
      CommitPublishes(g, s, step, s');
    }
  }

  lemma {:induction false} StepInv(g: Setting, s: Store, step: Step, s': Store)
    requires Inv(s) && Next(g, s, step, s')
    ensures Inv(s')
  {
    StepWellFormed(g, s, step, s');
    StepHistory(g, s, step, s');
    forall u | u in s'.committed ensures IsDir(s'.fs, u.final) {
      StepCommitted(g, s, step, s', u);
    }
  }

  lemma {:induction false} RunInv(g: Setting, states: seq<Store>, steps: seq<Step>, i: nat)
    requires Run(g, states, steps) && i < |states|
    ensures Inv(states[i])
  {
    if i == 0 {
      assert IsName(STAGING) && IsName(COMMITTED);
    } else {
      RunInv(g, states, steps, i - 1);
      StepInv(g, states[i - 1], steps[i - 1], states[i]);
    }
  }

  // ---------------------------------------------------------------- published outputs last

  /** Once committed, a directory never changes and never disappears, whatever is done to any transaction. */
  lemma {:induction false} PublishedForever(g: Setting, states: seq<Store>, steps: seq<Step>, i: nat, j: nat, t: Transaction)
    requires Run(g, states, steps) && i <= j < |states| && t in states[i].committed
    ensures t in states[j].committed && IsDir(states[j].fs, t.final)
    ensures SameDirectory(states[i].fs, states[j].fs, t.final)
    decreases j - i
  {
    RunInv(g, states, steps, i);
    if i < j {
      StepInv(g, states[i], steps[i], states[i + 1]);
      forall p | p <= t.final || t.final <= p
        ensures p in states[i].fs <==> p in states[i + 1].fs
        ensures p in states[i].fs ==> states[i + 1].fs[p] == states[i].fs[p]
      {
        StepKeepsPublished(g, states[i], steps[i], states[i + 1], t, p);
      }
      PublishedForever(g, states, steps, i + 1, j, t);
    }
  }

  /** An output that verifies keeps verifying. */
  lemma {:induction false} VerifiedForever(g: Setting, states: seq<Store>, steps: seq<Step>, i: nat, j: nat,
                                           t: Transaction, output: DependencyOutput)
    requires Run(g, states, steps) && i <= j < |states| && t in states[i].committed
    requires output.commitPath == t.final
    ensures Accepts(g.codec, states[i].fs, output) <==> Accepts(g.codec, states[j].fs, output)
  {
    PublishedForever(g, states, steps, i, j, t);
    if Accepts(g.codec, states[i].fs, output) {
      AcceptanceIsLocal(g.codec, states[i].fs, states[j].fs, output);
    }
    if Accepts(g.codec, states[j].fs, output) {
      AcceptanceIsLocal(g.codec, states[j].fs, states[i].fs, output);
    }
  }

  /** What a commit step published verifies in every later state exactly if cap and path conditions held then. */
  lemma {:induction false} CommittedVerifiesForever(g: Setting, states: seq<Store>, steps: seq<Step>, i: nat, j: nat)
    requires Run(g, states, steps) && i < j < |states| && steps[i].Commit?
    requires Sound(g.codec) && g.limits.maxBytes < TWO_64 && steps[i].t.createdAt != 0 && steps[i].now != 0
    ensures var t, files := steps[i].t, steps[i].files;
      Accepts(g.codec, states[j].fs, OutputOf(t.agentID, ResultOf(t, files))) <==>
        && |g.codec.encode(ManifestOf(t, steps[i].now, files))| <= MANIFEST_CAP
        && PathsTrimmed(states[i].fs, t.staging) && PathsLegible(g.codec, states[i].fs, t.staging)
  {
    var t, files := steps[i].t, steps[i].files;
    RunInv(g, states, steps, i);
    assert Next(g, states[i], steps[i], states[i + 1]);
    CommitVerifies(g.codec, g.limits, states[i].fs, t, steps[i].now, files);
    VerifiedForever(g, states, steps, i + 1, j, t, OutputOf(t.agentID, ResultOf(t, files)));
  }

  /** The work of other transactions never shows in a staging directory. */
  lemma {:induction false} StagingIsPrivate(g: Setting, s: Store, step: Step, s': Store, t: Transaction, p: Path)
    requires Inv(s) && Next(g, s, step, s') && t in s.begun && step.t.id != t.id && t.staging <= p
    ensures p in s.fs <==> p in s'.fs
    ensures p in s.fs ==> s'.fs[p] == s.fs[p]
  {
    Separate(t, step.t, p);
    if p in s.fs {
      StepKeeps(g, s, step, s', p);
    } else if p in s'.fs {
      StepAdds(g, s, step, s', p);
    }
  }

  // ---------------------------------------------------------------- one place at a time

  /** The acting transaction's own directories after its step. */
  lemma {:induction false} StepOwn(g: Setting, s: Store, step: Step, s': Store)
    requires Inv(s) && Next(g, s, step, s')
    ensures step.Begin? ==> IsDir(s'.fs, step.t.staging) && (step.t.final in s'.fs <==> step.t.final in s.fs)
    ensures step.Commit? ==> step.t.staging !in s'.fs && step.t.final in s'.fs && step.t.final !in s.fs
    ensures step.Abort? ==> step.t.staging !in s'.fs && (step.t.final in s'.fs <==> step.t.final in s.fs)
    ensures step.Commit? || step.Abort? ==> IsDir(s.fs, step.t.staging)
    ensures step.Write? || step.CommitFails? || step.AbortFails? ==>
      && (step.t.staging in s'.fs <==> step.t.staging in s.fs)
      && (IsDir(s.fs, step.t.staging) ==> IsDir(s'.fs, step.t.staging))
      && (step.t.final in s'.fs <==> step.t.final in s.fs)
  {
    var t := step.t;
    StepHistory(g, s, step, s');
    StagingIsNotFinal(t);
    match step {
      case Begin(_) =>
      case Write(_) =>
      case Commit(_, now, files) =>
        var bytes := g.codec.encode(ManifestOf(t, now, files));
        CommitKeeps(g, s, t, bytes, t.staging);
        PublishedPlain(s.fs, t, bytes);
      case CommitFails(_) =>
      case Abort(_) =>
      case AbortFails(_) =>
    }
  }

  lemma {:induction false} StepOthers(g: Setting, s: Store, step: Step, s': Store, u: Transaction)
    requires Inv(s) && Next(g, s, step, s') && u in s.begun && step.t.id != u.id
    ensures u.staging in s.fs <==> u.staging in s'.fs
    ensures IsDir(s.fs, u.staging) ==> IsDir(s'.fs, u.staging)
    ensures u.final in s.fs <==> u.final in s'.fs
  {
    StagingIsPrivate(g, s, step, s', u, u.staging);
    StepHistory(g, s, step, s');
    Separate(step.t, u, u.final);
    Separate(u, step.t, u.final);
    if u.final in s.fs {
      StepKeeps(g, s, step, s', u.final);
    } else if u.final in s'.fs {
      StepAdds(g, s, step, s', u.final);
    }
  }

  lemma {:induction false} UsedFinal(s: Store, u: Transaction)
    requires Exclusive(s) && s.committed <= s.begun && (forall t | t in s.begun :: Begun(t)) && Begun(u)
    ensures u.final in s.fs ==> exists v :: v in s.begun && v.id == u.id
  {
    if u.final in s.fs {
      assert PublishedAt(s, u.final);
      var v :| v in s.committed && v.final == u.final;
      assert v.final[2] == v.id && u.final[2] == u.id;
    }
  }

  lemma {:induction false} StepShows(g: Setting, s: Store, step: Step, s': Store, u: Transaction)
    requires Inv(s) && Exclusive(s) && Next(g, s, step, s') && Fresh(s, step) && u in s'.begun
    ensures Shows(s', u)
  {
    StepHistory(g, s, step, s');
    if u == step.t {
      StepOwn(g, s, step, s');
      if step.Begin? {
        UsedFinal(s, u);
      } else {
        assert Shows(s, u);
      }
    } else {
      assert Shows(s, u);
      StepOthers(g, s, step, s', u);
    }
  }

  lemma {:induction false} StepPublished(g: Setting, s: Store, step: Step, s': Store, p: Path)
    requires Inv(s) && Exclusive(s) && Next(g, s, step, s')
    requires p in s'.fs && |p| == 3 && p[0] == COMMITTED
    ensures PublishedAt(s', p)
  {
    StepHistory(g, s, step, s');
    if p in s.fs {
      assert PublishedAt(s, p);
    } else {
      StepAdds(g, s, step, s', p);
      Separate(step.t, step.t, p);
      assert step.t.staging[0] == STAGING && STAGING[0] != COMMITTED[0];
      assert step.t.final <= p ==> step.t.final == p;
    }
  }

  lemma {:induction false} StepOnePlace(g: Setting, s: Store, step: Step, s': Store)
    requires Inv(s) && Exclusive(s) && Next(g, s, step, s') && Fresh(s, step)
    ensures OnePlaceEach(s')
  {
    forall u | u in s'.begun ensures Shows(s', u) {
      StepShows(g, s, step, s', u);
    }
  }

  lemma {:induction false} StepAllPublished(g: Setting, s: Store, step: Step, s': Store)
    requires Inv(s) && Exclusive(s) && Next(g, s, step, s')
    ensures forall p | p in s'.fs && |p| == 3 && p[0] == COMMITTED :: PublishedAt(s', p)
  {
    forall p | p in s'.fs && |p| == 3 && p[0] == COMMITTED ensures PublishedAt(s', p) {
      StepPublished(g, s, step, s', p);
    }
  }

  lemma {:induction false} StepExclusive(g: Setting, s: Store, step: Step, s': Store)
    requires Inv(s) && Exclusive(s) && Next(g, s, step, s') && Fresh(s, step)
    ensures Exclusive(s')
  {
    StepHistory(g, s, step, s');
    StepOnePlace(g, s, step, s');
    StepAllPublished(g, s, step, s');
  }

  /** With fresh identifiers every transaction is in exactly one of staging, committed and gone. */
  lemma {:induction false} ExactlyOnePlace(g: Setting, states: seq<Store>, steps: seq<Step>, i: nat)
    requires Run(g, states, steps) && FreshRun(states, steps) && i < |states|
    ensures Exclusive(states[i])
  {
    if i > 0 {
      ExactlyOnePlace(g, states, steps, i - 1);
      RunInv(g, states, steps, i - 1);
      StepExclusive(g, states[i - 1], steps[i - 1], states[i]);
    }
  }

  lemma {:induction false} HistoryGrows(g: Setting, states: seq<Store>, steps: seq<Step>, i: nat, j: nat)
    requires Run(g, states, steps) && i <= j < |states|
    ensures states[i].committed <= states[j].committed && states[i].aborted <= states[j].aborted
    decreases j - i
  {
    if i < j {
      RunInv(g, states, steps, i);
      StepHistory(g, states[i], steps[i], states[i + 1]);
      HistoryGrows(g, states, steps, i + 1, j);
    }
  }

  /** A transaction ends once: after a commit or an abort every further commit or abort of it fails. */
  lemma {:induction false} EndsOnce(g: Setting, states: seq<Store>, steps: seq<Step>, i: nat, j: nat)
    requires Run(g, states, steps) && FreshRun(states, steps) && i < j < |steps|
    requires (steps[i].Commit? || steps[i].Abort?) && steps[j].t == steps[i].t
    ensures !steps[j].Commit? && !steps[j].Abort? && !ValidTransaction(states[j].fs, steps[j].t)
  {
    var t := steps[i].t;
    RunInv(g, states, steps, i);
    assert Next(g, states[i], steps[i], states[i + 1]) && Next(g, states[j], steps[j], states[j + 1]);
    StepHistory(g, states[i], steps[i], states[i + 1]);
    HistoryGrows(g, states, steps, i + 1, j);
    RunInv(g, states, steps, j);
    ExactlyOnePlace(g, states, steps, j);
    assert Shows(states[j], t);
  }

  lemma {:induction false} StagedAgain(s: Store, s': Store, t: Transaction)
    requires Shows(s, t) && t.staging !in s.fs && t.staging in s'.fs
    requires s'.committed == s.committed && s'.aborted == s.aborted
    ensures !Shows(s', t)
  {}

  /** Begin looks only at the staging directory, so it accepts an identifier used before; the transaction that
      had it is then no longer where the history says. */
  lemma {:induction false} ReuseBreaksExclusion(g: Setting, s: Store, step: Step, s': Store)
    requires Inv(s) && OnePlaceEach(s) && Next(g, s, step, s') && !Fresh(s, step)
    ensures !OnePlaceEach(s')
  {
    var u :| u in s.begun && u.id == step.t.id;
    StepHistory(g, s, step, s');
    assert Begun(u) && u.staging == step.t.staging;
    assert Shows(s, u);
    StagedAgain(s, s', u);
  }

  /** That takes the same agent, the same nanosecond and the same random suffix. */
  lemma {:induction false} ReuseNeedsSameStamp(s: Store, t: Transaction, u: Transaction)
    returns (stamp: Stamp)
    requires Inv(s) && t in s.begun && u in s.begun && t.id == u.id
    ensures IsStamp(stamp) && t.agentID == u.agentID && t.id == TransactionID(t.agentID, stamp)
    ensures t.staging == u.staging && t.final == u.final
    ensures forall a, z | IsStamp(z) && TransactionID(a, z) == t.id :: a == t.agentID && z == stamp
  {
    assert Begun(t) && Begun(u) && Generated(t) && Generated(u);
    stamp :| IsStamp(stamp) && t.id == TransactionID(t.agentID, stamp);
    var z :| IsStamp(z) && u.id == TransactionID(u.agentID, z);
    TransactionIDUnique(t.agentID, stamp, u.agentID, z);
    forall a, z | IsStamp(z) && TransactionID(a, z) == t.id ensures a == t.agentID && z == stamp {
      TransactionIDUnique(a, z, t.agentID, stamp);
    }
  }

  /** Whatever has been committed can be begun again under its old identifier, and is then in two places. */
  lemma {:induction false} BegunAgain(g: Setting, states: seq<Store>, steps: seq<Step>, t: Transaction)
    returns (last: Store)
    requires Run(g, states, steps) && OnePlaceEach(states[|steps|]) && t in states[|steps|].committed
    ensures Run(g, states + [last], steps + [Begin(t)])
    ensures !OnePlaceEach(last) && t.staging in last.fs && t.final in last.fs
  {
    var s := states[|steps|];
    RunInv(g, states, steps, |steps|);
    assert Shows(s, t);
    last := s.(fs := s.fs[t.staging := Dir]);
    assert s.begun + {t} == s.begun;
    assert Next(g, s, Begin(t), last);
    ReuseBreaksExclusion(g, s, Begin(t), last);
    RunMore(g, states, steps, Begin(t), last);
  }

  lemma {:induction false} FreshUntil(g: Setting, states: seq<Store>, steps: seq<Step>, i: nat)
    requires Run(g, states, steps) && i < |steps| && OnePlaceEach(states[i]) && OnePlaceEach(states[i + 1])
    ensures Fresh(states[i], steps[i])
  {
    RunInv(g, states, steps, i);
    if !Fresh(states[i], steps[i]) {
      ReuseBreaksExclusion(g, states[i], steps[i], states[i + 1]);
    }
  }

  /** Every transaction of a run is where its history says throughout exactly when no identifier is given out
      twice; then also nothing else is published. */
  lemma {:induction false} ExclusionNeedsFreshIds(g: Setting, states: seq<Store>, steps: seq<Step>)
    requires Run(g, states, steps)
    ensures (forall i | 0 <= i < |states| :: OnePlaceEach(states[i])) <==> FreshRun(states, steps)
    ensures FreshRun(states, steps) ==> forall i | 0 <= i < |states| :: Exclusive(states[i])
  {
    if forall i | 0 <= i < |states| :: OnePlaceEach(states[i]) {
      forall i | 0 <= i < |steps| ensures Fresh(states[i], steps[i]) {
        FreshUntil(g, states, steps, i);
      }
    }
    if FreshRun(states, steps) {
      forall i | 0 <= i < |states| ensures Exclusive(states[i]) {
        ExactlyOnePlace(g, states, steps, i);
      }
    }
  }

  // ---------------------------------------------------------------- limits

  function Image(from: Path, to: Path, p: Path): Path {
    to + if from <= p then Relative(from, p) else []
  }

  ghost function Images(from: Path, to: Path, ps: set<Path>): set<Path> {
    set p | p in ps :: Image(from, to, p)
  }

  lemma {:induction false} ImagesDiffer(from: Path, to: Path, p: Path, q: Path)
    requires from <= p && from <= q && Image(from, to, p) == Image(from, to, q)
    ensures p == q
  {
    assert from + Image(from, to, p)[|to|..] == p && from + Image(from, to, q)[|to|..] == q;
  }

  lemma {:induction false} ImagesWithout(from: Path, to: Path, ps: set<Path>, p: Path)
    requires p in ps && forall q | q in ps :: from <= q
    ensures Image(from, to, p) in Images(from, to, ps)
    ensures Images(from, to, ps) - {Image(from, to, p)} == Images(from, to, ps - {p})
  {
    forall q | q in ps - {p} ensures Image(from, to, q) != Image(from, to, p) {
      if Image(from, to, q) == Image(from, to, p) { ImagesDiffer(from, to, p, q); }
    }
  }

  lemma {:induction false} MovedTotals(fs: Tree, after: Tree, from: Path, to: Path, ps: set<Path>)
    requires forall p | p in ps :: from <= p && Weight(after, Image(from, to, p)) == Weight(fs, p)
    ensures |Images(from, to, ps)| == |ps|
    ensures SizeOf(after, Images(from, to, ps)) == SizeOf(fs, ps)
  {
    if ps == {} {
      assert Images(from, to, ps) == {};
    } else {
      var p :| p in ps;
      MovedTotals(fs, after, from, to, ps - {p});
      ImagesWithout(from, to, ps, p);
      SizeOfRemove(after, Images(from, to, ps), Image(from, to, p));
      SizeOfRemove(fs, ps, p);
    }
  }

  lemma {:induction false} PublishedArtifacts(fs: Tree, t: Transaction, bytes: Bytes)
    requires WellFormed(fs) && Begun(t) && t.final !in fs
    ensures Artifacts(Published(fs, t, bytes), t.final) == Images(t.staging, t.final, Artifacts(fs, t.staging))
  {
    var after := Published(fs, t, bytes);
    var staged := Artifacts(fs, t.staging);
    forall p | p in staged ensures Image(t.staging, t.final, p) in Artifacts(after, t.final) {
      ArtifactNames(fs, t.staging, p);
      PublishedArtifact(fs, t, bytes, Relative(t.staging, p));
    }
    forall p | p in Artifacts(after, t.final) ensures p in Images(t.staging, t.final, staged) {
      var q := Relative(t.final, p);
      assert t.final + q == p && Relative(t.staging, t.staging + q) == q;
      PublishedArtifact(fs, t, bytes, q);
      assert t.staging + q in staged && Image(t.staging, t.final, t.staging + q) == p;
    }
  }

  lemma {:induction false} PublishedTotals(fs: Tree, t: Transaction, bytes: Bytes)
    requires WellFormed(fs) && Begun(t) && t.final !in fs
    ensures var after := Published(fs, t, bytes);
      && |Artifacts(after, t.final)| == |Artifacts(fs, t.staging)|
      && SizeOf(after, Artifacts(after, t.final)) == SizeOf(fs, Artifacts(fs, t.staging))
  {
    var after := Published(fs, t, bytes);
    var staged := Artifacts(fs, t.staging);
    forall p | p in staged
      ensures t.staging <= p && Weight(after, Image(t.staging, t.final, p)) == Weight(fs, p)
    {
      ArtifactNames(fs, t.staging, p);
      PublishedArtifact(fs, t, bytes, Relative(t.staging, p));
    }
    PublishedArtifacts(fs, t, bytes);
    MovedTotals(fs, after, t.staging, t.final, staged);
  }

  ghost predicate WithinLimits(limits: Limits, fs: Tree, root: Path) {
    && |Artifacts(fs, root)| <= limits.maxFiles
    && SizeOf(fs, Artifacts(fs, root)) <= limits.maxBytes
    && (limits.allowEmpty || |Artifacts(fs, root)| > 0)
  }

  lemma {:induction false} SameDirectorySameLimits(limits: Limits, fs: Tree, after: Tree, root: Path)
    requires SameDirectory(fs, after, root) && WithinLimits(limits, fs, root)
    ensures WithinLimits(limits, after, root)
  {
    var files := Artifacts(fs, root);
    assert files == Artifacts(after, root);
    forall p | p in files
      ensures root <= p && Image(root, root, p) == p && Weight(after, p) == Weight(fs, p)
    {
      assert root <= p;
    }
    MovedTotals(fs, after, root, root, files);
    assert Images(root, root, files) == files;
  }

  /** Whatever is published at any time is within the limits of the store. */
  lemma {:induction false} PublishedWithinLimits(g: Setting, states: seq<Store>, steps: seq<Step>, i: nat, t: Transaction)
    requires Run(g, states, steps) && i < |states| && t in states[i].committed
    ensures WithinLimits(g.limits, states[i].fs, t.final)
  {
    if i > 0 {
      var s, step, s' := states[i - 1], steps[i - 1], states[i];
      RunInv(g, states, steps, i - 1);
      StepHistory(g, s, step, s');
      if t in s.committed {
        PublishedWithinLimits(g, states, steps, i - 1, t);
        PublishedForever(g, states, steps, i - 1, i, t);
        SameDirectorySameLimits(g.limits, s.fs, s'.fs, t.final);
      } else {
        CommitStep(g, s, step, s');
        PublishedTotals(s.fs, t, BytesOf(g, step));
      }
    }
  }
}
