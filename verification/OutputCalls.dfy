/** Commit and Abort as the system calls they are made of, interleaved between goroutines without a lock. */
module OutputCalls {
  import opened Digests
  import opened Paths
  import opened OutputTree
  import opened Outputs
  import opened OutputRoundTrip
  import opened OutputRuns

  /** How far a call of Commit or Abort has come. */
  datatype Stage =
    | Scanning(done: set<Path>)
    | Described(now: int, files: seq<FileRecord>)
    | Manifested(now: int, files: seq<FileRecord>)
    | Prepared(now: int, files: seq<FileRecord>)
    | Removing

  datatype Call = Call(t: Transaction, stage: Stage)

  /** The store, and what each goroutine that is inside Commit or Abort is doing. */
  datatype Busy = Busy(store: Store, calls: map<nat, Call>)

  /** Whole steps are one system call (Begin), the agent's own work (Write), or errors that leave no trace. */
  datatype Move =
    | Whole(step: Step)
    | Scan(w: nat, t: Transaction)
    | Chmod(w: nat, p: Path)
    | Describe(w: nat, now: int, files: seq<FileRecord>)
    | WriteManifest(w: nat)
    | MakeParent(w: nat)
    | Rename(w: nat)
    | GiveUp(w: nat)
    | Remove(w: nat, t: Transaction)
    | Unlink(w: nat, p: Path)
    | RemoveLast(w: nat)

  const IDLE := Busy(EMPTY, map[])

  predicate Immediate(s: Store, step: Step) {
    step.Begin? || step.Write? || step.AbortFails? || (step.CommitFails? && !ValidTransaction(s.fs, step.t))
  }

  /** The list that the scan of a publishable directory ends with. */
  ghost predicate Listed(g: Setting, fs: Tree, root: Path, files: seq<FileRecord>) {
    && Publishable(g.limits, fs, root)
    && Describes(g.codec, fs, root, files)
    && |files| == |Artifacts(fs, root)| && TotalSize(files) == SizeOf(fs, Artifacts(fs, root))
  }

  function ManifestText(g: Setting, call: Call): Bytes
    requires call.stage.Described? || call.stage.Manifested? || call.stage.Prepared?
  {
    g.codec.encode(ManifestOf(call.t, call.stage.now, call.stage.files))
  }

  /** writeFileAtomic, which makes the directory of the file first. */
  function Written(fs: Tree, dir: Path, bytes: Bytes): Tree {
    MadeAll(fs, dir)[dir + [MANIFEST] := File(bytes, READ_ONLY)]
  }

  function Sets(s: Busy, w: nat, stage: Stage, fs: Tree): Busy
    requires w in s.calls
  {
    Busy(s.store.(fs := fs), s.calls[w := s.calls[w].(stage := stage)])
  }

  ghost predicate Moves(g: Setting, s: Busy, move: Move, s': Busy) {
    match move
    case Whole(step) => Immediate(s.store, step) && Next(g, s.store, step, s'.store) && s'.calls == s.calls
    case Scan(w, t) =>
      && w !in s.calls && t in s.store.begun && ValidTransaction(s.store.fs, t)
      && s' == s.(calls := s.calls[w := Call(t, Scanning({}))])
    case Remove(w, t) =>
      && w !in s.calls && t in s.store.begun && ValidTransaction(s.store.fs, t)
      && s' == s.(calls := s.calls[w := Call(t, Removing)])
    case _ => move.w in s.calls && Continues(g, s, move, s.calls[move.w], s')
  }

  /** The further steps of a call that is under way. */
  ghost predicate Continues(g: Setting, s: Busy, move: Move, call: Call, s': Busy)
    requires !move.Whole? && move.w in s.calls && s.calls[move.w] == call
  {
    var w, t, fs := move.w, call.t, s.store.fs;
    match move
    case Chmod(_, p) =>
      && call.stage.Scanning? && IsArtifact(fs, t.staging, p) && p !in call.stage.done
      && s' == Sets(s, w, Scanning(call.stage.done + {p}), fs[p := Protect(fs[p])])
    case Describe(_, now, files) =>
      && call.stage.Scanning? && call.stage.done == Artifacts(fs, t.staging) && Listed(g, fs, t.staging, files)
      && s' == Sets(s, w, Described(now, files), fs)
    case WriteManifest(_) =>
      && call.stage.Described? && CanMakeAll(fs, t.staging)
      && s' == Sets(s, w, Manifested(call.stage.now, call.stage.files), Written(fs, t.staging, ManifestText(g, call)))
    case MakeParent(_) =>
      && call.stage.Manifested? && t.final != [] && CanMakeAll(fs, Parent(t.final))
      && s' == Sets(s, w, Prepared(call.stage.now, call.stage.files), MadeAll(fs, Parent(t.final)))
    case Rename(_) =>
      && call.stage.Prepared? && t.final !in fs && IsDir(fs, t.staging)
      && s' == Busy(s.store.(fs := Renamed(fs, t.staging, t.final), committed := s.store.committed + {t}), s.calls - {w})
    case GiveUp(_) => Obstructed(g, fs, call) && s' == s.(calls := s.calls - {w})
    case Unlink(_, p) =>
      && call.stage.Removing? && p in fs && t.staging < p && (forall q | q in fs :: !(p < q))
      && s' == Sets(s, w, Removing, fs - {p})
    case RemoveLast(_) =>
      && call.stage.Removing?
      && s' == Busy(s.store.(fs := RemovedAll(fs, t.staging), aborted := s.store.aborted + {t}), s.calls - {w})
    case _ => false
  }

  /** Commit returns an error: the scan met an obstacle, the parent cannot be made, or the place is taken. */
  ghost predicate Obstructed(g: Setting, fs: Tree, call: Call) {
    var t := call.t;
    match call.stage
    case Scanning(_) => !Publishable(g.limits, fs, t.staging)
    case Described(_, _) => !CanMakeAll(fs, t.staging)
    case Manifested(_, _) => t.final != [] && !CanMakeAll(fs, Parent(t.final))
    case Prepared(_, _) => t.final in fs || !IsDir(fs, t.staging)
    case Removing => false
  }

  ghost predicate Free(s: Busy, t: Transaction) {
    forall w | w in s.calls :: s.calls[w].t.id != t.id
  }

  /** Nothing is started on a transaction while a call on it is under way. */
  ghost predicate OneAtATime(s: Busy, move: Move) {
    match move
    case Whole(step) => Free(s, step.t)
    case Scan(_, t) => Free(s, t)
    case Remove(_, t) => Free(s, t)
    case _ => true
  }

  ghost predicate Moving(g: Setting, states: seq<Busy>, moves: seq<Move>) {
    && |states| == |moves| + 1 && states[0] == IDLE
    && forall i | 0 <= i < |moves| :: Moves(g, states[i], moves[i], states[i + 1])
  }

  ghost predicate Orderly(states: seq<Busy>, moves: seq<Move>)
    requires |states| == |moves| + 1
  {
    forall i | 0 <= i < |moves| :: OneAtATime(states[i], moves[i])
  }

  /** What a move does when the operations are taken as a whole: a commit happens at its rename, a failing one when
      it gives up, an abort with the last entry it removes. */
  function Echo(s: Busy, move: Move): (steps: seq<Step>)
    ensures |steps| <= 1
  {
    match move
    case Whole(step) => if step.Begin? || step.Write? then [step] else []
    case Rename(w) =>
      if w in s.calls && s.calls[w].stage.Prepared?
      then [Commit(s.calls[w].t, s.calls[w].stage.now, s.calls[w].stage.files)] else []
    case GiveUp(w) => if w in s.calls then [CommitFails(s.calls[w].t)] else []
    case RemoveLast(w) => if w in s.calls then [Abort(s.calls[w].t)] else []
    case _ => []
  }

  /** The whole operations of the first k moves. */
  function Echoes(states: seq<Busy>, moves: seq<Move>, k: nat): seq<Step>
    requires k <= |moves| < |states|
  {
    if k == 0 then [] else Echoes(states, moves, k - 1) + Echo(states[k - 1], moves[k - 1])
  }

  // ---------------------------------------------------------------- the store as whole operations would have it

  predicate SameAt(fs: Tree, after: Tree, p: Path) {
    (p in fs <==> p in after) && (p in fs ==> fs[p] == after[p])
  }

  ghost predicate SameBelow(fs: Tree, after: Tree, dir: Path) {
    forall p | dir <= p :: SameAt(fs, after, p)
  }

  predicate Claims(s: Busy, w: nat, p: Path) {
    w in s.calls && s.calls[w].t.staging <= p
  }

  ghost predicate Claimed(s: Busy, p: Path) {
    exists w: nat :: Claims(s, w, p)
  }

  function ParentOf(t: Transaction): Path {
    [COMMITTED, t.agentID]
  }

  predicate Awaits(s: Busy, w: nat, p: Path) {
    w in s.calls && s.calls[w].stage.Prepared? && p == ParentOf(s.calls[w].t)
  }

  ghost predicate Awaited(s: Busy, p: Path) {
    exists w: nat :: Awaits(s, w, p)
  }

  /** The staging directory in the middle of a commit, from the one the commit found. */
  ghost function View(g: Setting, fs: Tree, call: Call): Tree {
    match call.stage
    case Scanning(done) => ProtectAll(fs, done)
    case Described(_, _) => ProtectAll(fs, Artifacts(fs, call.t.staging))
    case Manifested(_, _) => Sealed(fs, call.t.staging, ManifestText(g, call))
    case Prepared(_, _) => Sealed(fs, call.t.staging, ManifestText(g, call))
    case Removing => fs
  }

  /** a is the tree without the work of the call. */
  ghost predicate CallHolds(g: Setting, s: Tree, a: Tree, call: Call) {
    var t := call.t;
    && Begun(t) && IsDir(s, t.staging) && IsDir(a, t.staging)
    && (!call.stage.Removing? ==> SameBelow(s, View(g, a, call), t.staging))
    && (call.stage.Scanning? ==> call.stage.done <= Artifacts(a, t.staging))
    && (call.stage.Described? || call.stage.Manifested? || call.stage.Prepared? ==>
      Listed(g, a, t.staging, call.stage.files))
    && (call.stage.Prepared? ==> IsDir(s, ParentOf(t)))
  }

  /** Where no call is at work the trees agree, up to a parent directory made ahead of a rename. */
  ghost predicate Settled(s: Busy, a: Tree, p: Path) {
    !Claimed(s, p) ==>
      && (p in a ==> p in s.store.fs && s.store.fs[p] == a[p])
      && (p in s.store.fs && p !in a ==> s.store.fs[p].Dir? && Awaited(s, p))
  }

  ghost predicate SameHistory(s: Store, a: Store) {
    s.begun == a.begun && s.committed == a.committed && s.aborted == a.aborted
  }

  predicate ApartAt(s: Busy, v: nat, w: nat) {
    v in s.calls && w in s.calls && s.calls[v].t.id == s.calls[w].t.id ==> v == w
  }

  ghost predicate HoldsAt(g: Setting, s: Busy, a: Store, w: nat) {
    w in s.calls ==> s.calls[w].t in a.begun && CallHolds(g, s.store.fs, a.fs, s.calls[w])
  }

  ghost predicate Follows(g: Setting, s: Busy, a: Store) {
    && SameHistory(s.store, a)
    && (forall v: nat, w: nat :: ApartAt(s, v, w))
    && (forall w: nat :: HoldsAt(g, s, a, w))
    && (forall p: Path :: Settled(s, a.fs, p))
  }

  // ---------------------------------------------------------------- what a call does to the others

  predicate EffectAt(t: Transaction, fs: Tree, after: Tree, p: Path) {
    || t.staging <= p
    || (p in fs && p in after && after[p] == fs[p])
    || (p !in fs && (p in after ==> t.final <= p || p == ParentOf(t)))
  }

  /** Outside the staging directory of t nothing changes but what t publishes and the parent of that. */
  ghost predicate Effect(t: Transaction, fs: Tree, after: Tree) {
    forall p: Path :: EffectAt(t, fs, after, p)
  }

  lemma {:induction false} RootsDiffer(t: Transaction, u: Transaction, p: Path)
    requires Begun(t) && Begun(u)
    ensures !(t.staging <= ParentOf(u)) && !(t.staging <= u.final)
    ensures t.staging <= p ==> !(u.final <= p) && p != ParentOf(u)
    ensures t.staging <= p && t.id != u.id ==> !(u.staging <= p)
  {
    assert STAGING[0] != COMMITTED[0];
    assert t.staging[0] == u.staging[0] == STAGING && u.final[0] == ParentOf(u)[0] == COMMITTED;
    if t.staging <= p { assert p[0] == STAGING && p[1] == t.id; }
    if u.staging <= p { assert p[1] == u.id; }
  }

  lemma {:induction false} EffectApart(t: Transaction, u: Transaction, fs: Tree, after: Tree)
    requires Begun(t) && Begun(u) && t.id != u.id && Effect(t, fs, after)
    ensures SameBelow(fs, after, u.staging)
    ensures IsDir(fs, ParentOf(u)) ==> IsDir(after, ParentOf(u))
  {
    forall p | u.staging <= p ensures SameAt(fs, after, p) {
      assert EffectAt(t, fs, after, p);
      RootsDiffer(u, t, p);
    }
    assert EffectAt(t, fs, after, ParentOf(u));
    RootsDiffer(t, u, []);
  }

  lemma {:induction false} SameSizes(fs: Tree, after: Tree, files: set<Path>)
    requires forall p | p in files :: Weight(after, p) == Weight(fs, p)
    ensures SizeOf(after, files) == SizeOf(fs, files)
  {
    if files != {} {
      var p :| p in files;
      SameSizes(fs, after, files - {p});
      SizeOfRemove(fs, files, p);
      SizeOfRemove(after, files, p);
    }
  }

  predicate AlikeAt(fs: Tree, after: Tree, p: Path) {
    (p in fs <==> p in after) && (p in fs ==> after[p] == fs[p] || after[p] == Protect(fs[p]))
  }

  /** A scan sees kinds, bytes and the executable bit. */
  ghost predicate ScansAlike(fs: Tree, after: Tree, dir: Path) {
    forall p | dir <= p :: AlikeAt(fs, after, p)
  }

  lemma {:induction false} SameScansAlike(fs: Tree, after: Tree, dir: Path)
    requires SameBelow(fs, after, dir)
    ensures ScansAlike(fs, after, dir) && ScansAlike(after, fs, dir)
  {
    forall p | dir <= p ensures AlikeAt(fs, after, p) && AlikeAt(after, fs, p) {
      assert SameAt(fs, after, p);
    }
  }

  lemma {:induction false} SameArtifacts(fs: Tree, after: Tree, dir: Path)
    requires ScansAlike(fs, after, dir)
    ensures Artifacts(after, dir) == Artifacts(fs, dir)
    ensures SizeOf(after, Artifacts(after, dir)) == SizeOf(fs, Artifacts(fs, dir))
  {
    forall p ensures p in Artifacts(after, dir) <==> p in Artifacts(fs, dir) {
      if dir <= p { assert AlikeAt(fs, after, p); }
    }
    forall p | p in Artifacts(fs, dir) ensures Weight(after, p) == Weight(fs, p) {
      assert AlikeAt(fs, after, p);
    }
    SameSizes(fs, after, Artifacts(fs, dir));
  }

  lemma {:induction false} SamePublishable(g: Setting, fs: Tree, after: Tree, dir: Path)
    requires ScansAlike(fs, after, dir)
    ensures Publishable(g.limits, after, dir) <==> Publishable(g.limits, fs, dir)
  {
    SameArtifacts(fs, after, dir);
    assert dir <= dir + [MANIFEST] && AlikeAt(fs, after, dir + [MANIFEST]);
    forall p | Below(dir, p)
      ensures (p in fs ==> fs[p].Dir? || fs[p].File?) <==> (p in after ==> after[p].Dir? || after[p].File?)
    {
      assert AlikeAt(fs, after, p);
    }
  }

  ghost predicate RecordsAlike(c: Codec, fs: Tree, after: Tree, dir: Path, p: Path) {
    && (IsArtifact(fs, dir, p) <==> IsArtifact(after, dir, p))
    && (IsArtifact(fs, dir, p) ==> RecordAt(c, after, dir, p) == RecordAt(c, fs, dir, p))
  }

  lemma {:induction false} SameDescribes(c: Codec, fs: Tree, after: Tree, dir: Path, files: seq<FileRecord>)
    requires forall p: Path :: RecordsAlike(c, fs, after, dir, p)
    requires Describes(c, after, dir, files)
    ensures Describes(c, fs, dir, files)
  {
    forall p | IsArtifact(fs, dir, p) ensures RecordAt(c, fs, dir, p) in files {
      assert RecordsAlike(c, fs, after, dir, p);
    }
    forall r | r in files ensures IsRecord(c, fs, dir, r) {
      assert IsRecord(c, after, dir, r);
      var p :| IsArtifact(after, dir, p) && r == RecordAt(c, after, dir, p);
      assert RecordsAlike(c, fs, after, dir, p);
    }
  }

  lemma {:induction false} SameListed(g: Setting, fs: Tree, after: Tree, dir: Path, files: seq<FileRecord>)
    requires ScansAlike(fs, after, dir)
    ensures Listed(g, after, dir, files) <==> Listed(g, fs, dir, files)
  {
    SamePublishable(g, fs, after, dir);
    SameArtifacts(fs, after, dir);
    forall p: Path ensures RecordsAlike(g.codec, fs, after, dir, p) && RecordsAlike(g.codec, after, fs, dir, p) {
      if dir <= p { assert AlikeAt(fs, after, p); }
    }
    if Describes(g.codec, after, dir, files) { SameDescribes(g.codec, fs, after, dir, files); }
    if Describes(g.codec, fs, dir, files) { SameDescribes(g.codec, after, fs, dir, files); }
  }

  lemma {:induction false} ProtectedAt(fs: Tree, done: set<Path>, p: Path)
    ensures p in ProtectAll(fs, done) <==> p in fs
    ensures p in fs ==> ProtectAll(fs, done)[p] == if p in done then Protect(fs[p]) else fs[p]
  {}

  lemma {:induction false} ViewIsLocal(g: Setting, fs: Tree, after: Tree, call: Call)
    requires SameBelow(fs, after, call.t.staging)
    ensures SameBelow(View(g, fs, call), View(g, after, call), call.t.staging)
    ensures Artifacts(fs, call.t.staging) == Artifacts(after, call.t.staging)
  {
    var dir := call.t.staging;
    SameScansAlike(fs, after, dir);
    SameArtifacts(fs, after, dir);
    forall p | dir <= p ensures SameAt(View(g, fs, call), View(g, after, call), p) {
      assert SameAt(fs, after, p);
      match call.stage {
        case Scanning(done) => ProtectedAt(fs, done, p); ProtectedAt(after, done, p);
        case Described(_, _) =>
          ProtectedAt(fs, Artifacts(fs, dir), p);
          ProtectedAt(after, Artifacts(fs, dir), p);
        case Manifested(_, _) => SealedAt(fs, dir, ManifestText(g, call), p); SealedAt(after, dir, ManifestText(g, call), p);
        case Prepared(_, _) => SealedAt(fs, dir, ManifestText(g, call), p); SealedAt(after, dir, ManifestText(g, call), p);
        case Removing =>
      }
    }
  }

  lemma {:induction false} SameBelowTransitive(a: Tree, b: Tree, c: Tree, dir: Path)
    requires SameBelow(a, b, dir) && SameBelow(b, c, dir)
    ensures SameBelow(a, c, dir)
  {
    forall p | dir <= p ensures SameAt(a, c, p) {
      assert SameAt(a, b, p) && SameAt(b, c, p);
    }
  }

  lemma {:induction false} SameBelowBack(a: Tree, b: Tree, dir: Path)
    requires SameBelow(a, b, dir)
    ensures SameBelow(b, a, dir)
  {
    forall p | dir <= p ensures SameAt(b, a, p) {
      assert SameAt(a, b, p);
    }
  }

  lemma {:induction false} HoldsWhereSame(g: Setting, s: Tree, s': Tree, a: Tree, a': Tree, call: Call)
    requires CallHolds(g, s, a, call)
    requires SameBelow(s, s', call.t.staging) && SameBelow(a, a', call.t.staging)
    requires IsDir(s, ParentOf(call.t)) ==> IsDir(s', ParentOf(call.t))
    ensures CallHolds(g, s', a', call)
  {
    var dir := call.t.staging;
    assert SameAt(s, s', dir) && SameAt(a, a', dir);
    ViewIsLocal(g, a, a', call);
    if !call.stage.Removing? {
      SameBelowBack(s, s', dir);
      SameBelowTransitive(s', s, View(g, a, call), dir);
      SameBelowTransitive(s', View(g, a, call), View(g, a', call), dir);
    }
    if call.stage.Described? || call.stage.Manifested? || call.stage.Prepared? {
      SameScansAlike(a, a', dir);
      SameListed(g, a', a, dir, call.stage.files);
    }
  }

  lemma {:induction false} OthersHold(g: Setting, t: Transaction, s: Tree, s': Tree, a: Tree, a': Tree, call: Call)
    requires Begun(t) && CallHolds(g, s, a, call) && call.t.id != t.id
    requires Effect(t, s, s') && Effect(t, a, a')
    ensures CallHolds(g, s', a', call)
  {
    EffectApart(t, call.t, s, s');
    EffectApart(t, call.t, a, a');
    HoldsWhereSame(g, s, s', a, a', call);
  }

  // ---------------------------------------------------------------- one move

  /** Goroutine mine (if any) works on t before and after, the others go on as they were, on other transactions. */
  predicate AsideAt(s: Busy, s': Busy, t: Transaction, mine: int, w: nat) {
    if w == mine then
      (w in s.calls ==> s.calls[w].t == t) && (w in s'.calls ==> s'.calls[w].t == t)
    else
      && (w in s.calls <==> w in s'.calls)
      && (w in s.calls ==> s'.calls[w] == s.calls[w] && s.calls[w].t.id != t.id)
  }

  ghost predicate Aside(s: Busy, s': Busy, t: Transaction, mine: int) {
    forall w: nat :: AsideAt(s, s', t, mine, w)
  }

  predicate Own(t: Transaction, p: Path) {
    t.staging <= p || t.final <= p || p == ParentOf(t)
  }

  lemma {:induction false} OthersSettled(s: Busy, s': Busy, a: Tree, a': Tree, t: Transaction, mine: int, p: Path)
    requires Aside(s, s', t, mine) && !Own(t, p) && Settled(s, a, p)
    requires EffectAt(t, s.store.fs, s'.store.fs, p) && EffectAt(t, a, a', p)
    ensures Settled(s', a', p)
  {
    if !Claimed(s', p) {
      if w: nat :| Claims(s, w, p) {
        assert AsideAt(s, s', t, mine, w);
        assert Claims(s', w, p);
      }
      if p in s'.store.fs && p !in a' {
        assert Awaited(s, p);
        var w: nat :| Awaits(s, w, p);
        assert AsideAt(s, s', t, mine, w);
        assert Awaits(s', w, p);
      }
    }
  }

  lemma {:induction false} StillApart(s: Busy, s': Busy, t: Transaction, mine: int, v: nat, w: nat)
    requires AsideAt(s, s', t, mine, v) && AsideAt(s, s', t, mine, w) && ApartAt(s, v, w)
    ensures ApartAt(s', v, w)
  {}

  lemma {:induction false} StillHolds(g: Setting, s: Busy, s': Busy, a: Store, a': Store, t: Transaction, mine: int, w: nat)
    requires w != mine && HoldsAt(g, s, a, w) && AsideAt(s, s', t, mine, w) && Begun(t) && a.begun <= a'.begun
    requires Effect(t, s.store.fs, s'.store.fs) && Effect(t, a.fs, a'.fs)
    ensures HoldsAt(g, s', a', w)
  {
    if w in s.calls { OthersHold(g, t, s.store.fs, s'.store.fs, a.fs, a'.fs, s.calls[w]); }
  }

  lemma {:induction false} StillFollows(g: Setting, s: Busy, s': Busy, a: Store, a': Store, t: Transaction, mine: int)
    requires Follows(g, s, a) && Begun(t) && SameHistory(s'.store, a') && a.begun <= a'.begun
    requires Aside(s, s', t, mine)
    requires Effect(t, s.store.fs, s'.store.fs) && Effect(t, a.fs, a'.fs)
    requires mine >= 0 ==> HoldsAt(g, s', a', mine)
    requires forall p | Own(t, p) :: Settled(s', a'.fs, p)
    ensures Follows(g, s', a')
  {
    forall v: nat, w: nat ensures ApartAt(s', v, w) {
      assert AsideAt(s, s', t, mine, v) && AsideAt(s, s', t, mine, w) && ApartAt(s, v, w);
      StillApart(s, s', t, mine, v, w);
    }
    forall w: nat ensures HoldsAt(g, s', a', w) {
      if w != mine {
        assert HoldsAt(g, s, a, w) && AsideAt(s, s', t, mine, w);
        StillHolds(g, s, s', a, a', t, mine, w);
      }
    }
    forall p: Path ensures Settled(s', a'.fs, p) {
      if !Own(t, p) {
        assert Settled(s, a.fs, p);
        assert EffectAt(t, s.store.fs, s'.store.fs, p) && EffectAt(t, a.fs, a'.fs, p);
        OthersSettled(s, s', a.fs, a'.fs, t, mine, p);
      }
    }
  }

  // ---------------------------------------------------------------- facts that the moves share

  lemma {:induction false} ParentIs(t: Transaction)
    requires Begun(t)
    ensures Parent(t.final) == ParentOf(t)
  {}

  lemma {:induction false} IsValid(fs: Tree, t: Transaction)
    requires Begun(t) && IsDir(fs, t.staging)
    ensures ValidTransaction(fs, t)
  {
    BegunPaths(t);
  }

  lemma {:induction false} OwnCall(g: Setting, s: Busy, a: Store, w: nat)
    requires Follows(g, s, a) && w in s.calls
    ensures Begun(s.calls[w].t) && s.calls[w].t in a.begun && CallHolds(g, s.store.fs, a.fs, s.calls[w])
  {
    assert HoldsAt(g, s, a, w);
  }

  lemma {:induction false} BegunCall(g: Setting, s: Busy, a: Store, w: nat)
    requires Follows(g, s, a) && w in s.calls
    ensures Begun(s.calls[w].t)
  {
    OwnCall(g, s, a, w);
  }

  /** Only paths below staging directories are claimed, only two-name paths below the committed root awaited. */
  lemma {:induction false} Unclaimed(g: Setting, s: Busy, a: Store, p: Path)
    requires Follows(g, s, a) && (|p| < 2 || p[0] != STAGING)
    ensures !Claimed(s, p)
  {
    forall w: nat ensures !Claims(s, w, p) {
      if w in s.calls { BegunCall(g, s, a, w); }
    }
  }

  lemma {:induction false} Unawaited(s: Busy, p: Path)
    requires |p| != 2 || p[0] != COMMITTED
    ensures !Awaited(s, p)
  {
    forall w: nat ensures !Awaits(s, w, p) {
      if w in s.calls { assert ParentOf(s.calls[w].t)[0] == COMMITTED; }
    }
  }

  /** The directories that no call owns. */
  lemma {:induction false} Roots(g: Setting, s: Busy, a: Store)
    requires WellFormed(a.fs) && Follows(g, s, a)
    ensures IsDir(s.store.fs, [STAGING]) && IsDir(s.store.fs, [COMMITTED]) && [] !in s.store.fs
  {
    assert Settled(s, a.fs, [STAGING]) && Settled(s, a.fs, [COMMITTED]) && Settled(s, a.fs, []);
    Unclaimed(g, s, a, [STAGING]);
    Unclaimed(g, s, a, [COMMITTED]);
    Unclaimed(g, s, a, []);
    Unawaited(s, []);
  }

  /** Below the staging directory of a transaction without a call the trees agree. */
  lemma {:induction false} FreeIsSame(g: Setting, s: Busy, a: Store, t: Transaction)
    requires Follows(g, s, a) && Free(s, t) && Begun(t)
    ensures SameBelow(s.store.fs, a.fs, t.staging)
  {
    assert STAGING[0] != COMMITTED[0];
    forall p | t.staging <= p ensures SameAt(s.store.fs, a.fs, p) {
      assert Settled(s, a.fs, p);
      assert p[0] == STAGING;
      Unawaited(s, p);
      if w: nat :| Claims(s, w, p) {
        BegunCall(g, s, a, w);
        RootsDiffer(t, s.calls[w].t, p);
      }
    }
  }

  /** Published directories are no call's business. */
  lemma {:induction false} FinalIsSame(g: Setting, s: Busy, a: Store, t: Transaction)
    requires Follows(g, s, a) && Begun(t)
    ensures SameBelow(s.store.fs, a.fs, t.final)
  {
    assert STAGING[0] != COMMITTED[0];
    forall p | t.final <= p ensures SameAt(s.store.fs, a.fs, p) {
      assert Settled(s, a.fs, p);
      assert p[0] == COMMITTED;
      Unclaimed(g, s, a, p);
      Unawaited(s, p);
    }
  }

  lemma {:induction false} ParentAgrees(g: Setting, s: Busy, a: Store, t: Transaction)
    requires Follows(g, s, a)
    ensures ParentOf(t) in a.fs ==> ParentOf(t) in s.store.fs && s.store.fs[ParentOf(t)] == a.fs[ParentOf(t)]
    ensures ParentOf(t) in s.store.fs && ParentOf(t) !in a.fs ==> s.store.fs[ParentOf(t)].Dir?
  {
    assert STAGING[0] != COMMITTED[0];
    assert Settled(s, a.fs, ParentOf(t));
    Unclaimed(g, s, a, ParentOf(t));
  }

  lemma {:induction false} CanMakeParent(fs: Tree, t: Transaction)
    requires IsDir(fs, [COMMITTED])
    ensures CanMakeAll(fs, ParentOf(t)) <==> (ParentOf(t) in fs ==> fs[ParentOf(t)].Dir?)
  {
    var dir := ParentOf(t);
    assert dir[..1] == [COMMITTED] && dir[..2] == dir;
    if ParentOf(t) in fs ==> fs[ParentOf(t)].Dir? {
      forall i | 0 < i <= |dir| ensures dir[..i] in fs ==> fs[dir[..i]].Dir? {
        assert i == 1 || i == 2;
      }
    }
  }

  lemma {:induction false} MadeParentAt(fs: Tree, t: Transaction, p: Path)
    requires [COMMITTED] in fs
    ensures p in MadeAll(fs, ParentOf(t)) <==> p in fs || p == ParentOf(t)
    ensures p in fs ==> MadeAll(fs, ParentOf(t))[p] == fs[p]
    ensures p !in fs && p == ParentOf(t) ==> MadeAll(fs, ParentOf(t))[p] == Dir
  {
    var dir := ParentOf(t);
    assert dir[..1] == [COMMITTED] && dir[..2] == dir;
    assert dir in Prefixes(dir);
    forall q | q in Prefixes(dir) ensures q == [COMMITTED] || q == dir {}
  }

  lemma {:induction false} ParentEffect(fs: Tree, t: Transaction)
    requires [COMMITTED] in fs
    ensures Effect(t, fs, MadeAll(fs, ParentOf(t)))
  {
    forall p: Path ensures EffectAt(t, fs, MadeAll(fs, ParentOf(t)), p) { MadeParentAt(fs, t, p); }
  }

  /** Only the staging directory of t changes. */
  ghost predicate Inside(t: Transaction, fs: Tree, after: Tree) {
    forall p | !(t.staging <= p) :: SameAt(fs, after, p)
  }

  lemma {:induction false} InsideEffect(t: Transaction, fs: Tree, after: Tree)
    requires Inside(t, fs, after)
    ensures Effect(t, fs, after)
  {
    forall p: Path ensures EffectAt(t, fs, after, p) {
      if !(t.staging <= p) { assert SameAt(fs, after, p); }
    }
  }

  lemma {:induction false} NoEffect(t: Transaction, fs: Tree)
    ensures Inside(t, fs, fs) && Effect(t, fs, fs)
  {
    InsideEffect(t, fs, fs);
  }

  /** Where p stays settled when t works inside its own directory only. */
  lemma {:induction false} InsideSettled(s: Busy, s': Busy, a: Tree, a': Tree, t: Transaction, p: Path)
    requires Settled(s, a, p) && !(t.staging <= p)
    requires SameAt(s.store.fs, s'.store.fs, p) && SameAt(a, a', p)
    requires Claimed(s, p) ==> Claimed(s', p)
    requires Awaited(s, p) ==> Awaited(s', p)
    ensures Settled(s', a', p)
  {}

  /** A move that works inside the staging directory of t only. */
  lemma {:induction false} InsideFollows(g: Setting, s: Busy, s': Busy, a: Store, a': Store, t: Transaction, mine: int)
    requires Follows(g, s, a) && Begun(t) && SameHistory(s'.store, a') && a.begun <= a'.begun
    requires Aside(s, s', t, mine)
    requires Inside(t, s.store.fs, s'.store.fs) && Inside(t, a.fs, a'.fs)
    requires mine >= 0 ==> HoldsAt(g, s', a', mine)
    requires forall p | t.staging <= p :: Settled(s', a'.fs, p)
    requires mine >= 0 && mine in s.calls && s.calls[mine].stage.Prepared? ==>
      mine in s'.calls && s'.calls[mine].stage.Prepared?
    ensures Follows(g, s', a')
  {
    InsideEffect(t, s.store.fs, s'.store.fs);
    InsideEffect(t, a.fs, a'.fs);
    forall p | Own(t, p) ensures Settled(s', a'.fs, p) {
      if !(t.staging <= p) {
        assert Settled(s, a.fs, p) && SameAt(s.store.fs, s'.store.fs, p) && SameAt(a.fs, a'.fs, p);
        if w: nat :| Claims(s, w, p) {
          assert AsideAt(s, s', t, mine, w);
          assert Claims(s', w, p);
        }
        if w: nat :| Awaits(s, w, p) {
          assert AsideAt(s, s', t, mine, w);
          assert Awaits(s', w, p);
        }
        InsideSettled(s, s', a.fs, a'.fs, t, p);
      }
    }
    StillFollows(g, s, s', a, a', t, mine);
  }
}
