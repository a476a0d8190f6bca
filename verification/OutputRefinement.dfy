/** Every interleaving of the system calls follows a run of whole operations. */
module OutputRefinement {
  import opened Digests
  import opened Paths
  import opened OutputTree
  import opened Outputs
  import opened OutputRoundTrip
  import opened OutputShape
  import opened OutputManager
  import opened OutputRuns
  import opened OutputCalls

  // ---------------------------------------------------------------- a call goes on below its directory

  lemma {:induction false} MineAside(g: Setting, s: Busy, a: Store, s': Busy, mine: nat)
    requires Follows(g, s, a) && mine in s.calls
    requires s'.calls == s.calls - {mine} || exists c: Call :: c.t == s.calls[mine].t && s'.calls == s.calls[mine := c]
    ensures Aside(s, s', s.calls[mine].t, mine)
  {
    var t := s.calls[mine].t;
    forall w: nat ensures AsideAt(s, s', t, mine, w) {
      assert ApartAt(s, w, mine);
    }
  }

  lemma {:induction false} Continued(g: Setting, s: Busy, a: Store, w: nat, stage: Stage, fs: Tree)
    requires Follows(g, s, a) && w in s.calls
    requires Inside(s.calls[w].t, s.store.fs, fs)
    requires s.calls[w].stage.Prepared? ==> stage.Prepared?
    requires CallHolds(g, fs, a.fs, Call(s.calls[w].t, stage))
    ensures Follows(g, Sets(s, w, stage, fs), a)
  {
    var s', t := Sets(s, w, stage, fs), s.calls[w].t;
    OwnCall(g, s, a, w);
    MineAside(g, s, a, s', w);
    NoEffect(t, a.fs);
    forall p | t.staging <= p ensures Settled(s', a.fs, p) {
      assert Claims(s', w, p);
    }
    InsideFollows(g, s, s', a, a, t, w);
  }

  lemma {:induction false} ChmodHolds(g: Setting, fs: Tree, a: Tree, t: Transaction, done: set<Path>, p: Path)
    requires CallHolds(g, fs, a, Call(t, Scanning(done)))
    requires IsArtifact(fs, t.staging, p) && p !in done
    ensures CallHolds(g, fs[p := Protect(fs[p])], a, Call(t, Scanning(done + {p})))
  {
    var after := fs[p := Protect(fs[p])];
    assert SameAt(fs, ProtectAll(a, done), p);
    ProtectedAt(a, done, p);
    assert IsArtifact(a, t.staging, p);
    forall q | t.staging <= q ensures SameAt(after, ProtectAll(a, done + {p}), q) {
      assert SameAt(fs, ProtectAll(a, done), q);
      ProtectedAt(a, done, q);
      ProtectedAt(a, done + {p}, q);
    }
  }

  lemma {:induction false} ChmodFollows(g: Setting, s: Busy, a: Store, w: nat, p: Path, s': Busy)
    requires Follows(g, s, a) && Moves(g, s, Chmod(w, p), s')
    ensures Follows(g, s', a)
  {
    var call, fs := s.calls[w], s.store.fs;
    OwnCall(g, s, a, w);
    ChmodHolds(g, fs, a.fs, call.t, call.stage.done, p);
    Continued(g, s, a, w, Scanning(call.stage.done + {p}), fs[p := Protect(fs[p])]);
  }

  lemma {:induction false} ScanningAlike(fs: Tree, a: Tree, done: set<Path>, dir: Path)
    requires SameBelow(fs, ProtectAll(a, done), dir)
    ensures ScansAlike(a, fs, dir)
  {
    forall p | dir <= p ensures AlikeAt(a, fs, p) {
      assert SameAt(fs, ProtectAll(a, done), p);
      ProtectedAt(a, done, p);
    }
  }

  lemma {:induction false} DescribeHolds(g: Setting, fs: Tree, a: Tree, t: Transaction, done: set<Path>,
                                         now: int, files: seq<FileRecord>)
    requires CallHolds(g, fs, a, Call(t, Scanning(done)))
    requires done == Artifacts(fs, t.staging) && Listed(g, fs, t.staging, files)
    ensures CallHolds(g, fs, a, Call(t, Described(now, files)))
  {
    ScanningAlike(fs, a, done, t.staging);
    SameArtifacts(a, fs, t.staging);
    SameListed(g, a, fs, t.staging, files);
  }

  lemma {:induction false} DescribeFollows(g: Setting, s: Busy, a: Store, w: nat, now: int, files: seq<FileRecord>, s': Busy)
    requires Follows(g, s, a) && Moves(g, s, Describe(w, now, files), s')
    ensures Follows(g, s', a)
  {
    var call, fs := s.calls[w], s.store.fs;
    OwnCall(g, s, a, w);
    DescribeHolds(g, fs, a.fs, call.t, call.stage.done, now, files);
    NoEffect(call.t, fs);
    Continued(g, s, a, w, Described(now, files), fs);
  }

  /** The directory is there, so it is not made again. */
  lemma {:induction false} WrittenAt(fs: Tree, t: Transaction, bytes: Bytes, q: Path)
    requires Begun(t) && IsDir(fs, [STAGING]) && IsDir(fs, t.staging)
    ensures var after := Written(fs, t.staging, bytes);
      && (q in after <==> q in fs || q == t.staging + [MANIFEST])
      && after[t.staging + [MANIFEST]] == File(bytes, READ_ONLY)
      && (q in fs && q != t.staging + [MANIFEST] ==> after[q] == fs[q])
  {
    assert t.staging[..1] == [STAGING] && t.staging[..2] == t.staging;
    assert forall p | p in Prefixes(t.staging) :: p == [STAGING] || p == t.staging;
  }

  lemma {:induction false} WrittenInside(fs: Tree, t: Transaction, bytes: Bytes)
    requires Begun(t) && IsDir(fs, [STAGING]) && IsDir(fs, t.staging)
    ensures Inside(t, fs, Written(fs, t.staging, bytes))
  {
    forall p | !(t.staging <= p) ensures SameAt(fs, Written(fs, t.staging, bytes), p) {
      WrittenAt(fs, t, bytes, p);
      assert t.staging <= t.staging + [MANIFEST];
    }
  }

  lemma {:induction false} WrittenHolds(g: Setting, fs: Tree, a: Tree, call: Call)
    requires call.stage.Described? && CallHolds(g, fs, a, call) && IsDir(fs, [STAGING])
    ensures CallHolds(g, Written(fs, call.t.staging, ManifestText(g, call)), a,
                      Call(call.t, Manifested(call.stage.now, call.stage.files)))
  {
    var dir, bytes := call.t.staging, ManifestText(g, call);
    var after := Written(fs, dir, bytes);
    forall q | dir <= q ensures SameAt(after, Sealed(a, dir, bytes), q) {
      WrittenAt(fs, call.t, bytes, q);
      assert SameAt(fs, View(g, a, call), q);
      ProtectedAt(a, Artifacts(a, dir), q);
      SealedAt(a, dir, bytes, q);
    }
    assert dir != dir + [MANIFEST];
    WrittenAt(fs, call.t, bytes, dir);
  }

  lemma {:induction false} WriteManifestFollows(g: Setting, s: Busy, a: Store, w: nat, s': Busy)
    requires WellFormed(a.fs) && Follows(g, s, a) && Moves(g, s, WriteManifest(w), s')
    ensures Follows(g, s', a)
  {
    var call, fs := s.calls[w], s.store.fs;
    OwnCall(g, s, a, w);
    Roots(g, s, a);
    WrittenHolds(g, fs, a.fs, call);
    WrittenInside(fs, call.t, ManifestText(g, call));
    Continued(g, s, a, w, Manifested(call.stage.now, call.stage.files), Written(fs, call.t.staging, ManifestText(g, call)));
  }

  lemma {:induction false} UnlinkFollows(g: Setting, s: Busy, a: Store, w: nat, p: Path, s': Busy)
    requires Follows(g, s, a) && Moves(g, s, Unlink(w, p), s')
    ensures Follows(g, s', a)
  {
    OwnCall(g, s, a, w);
    var fs := s.store.fs;
    assert Inside(s.calls[w].t, fs, fs - {p});
    assert CallHolds(g, fs - {p}, a.fs, Call(s.calls[w].t, Removing));
    Continued(g, s, a, w, Removing, fs - {p});
  }

  // ---------------------------------------------------------------- a call makes the parent directory

  lemma {:induction false} PreparedHolds(g: Setting, fs: Tree, a: Tree, call: Call)
    requires call.stage.Manifested? && CallHolds(g, fs, a, call)
    requires IsDir(fs, [COMMITTED]) && CanMakeAll(fs, ParentOf(call.t))
    ensures CallHolds(g, MadeAll(fs, ParentOf(call.t)), a, Call(call.t, Prepared(call.stage.now, call.stage.files)))
  {
    var t := call.t;
    var after, next := MadeAll(fs, ParentOf(t)), Call(t, Prepared(call.stage.now, call.stage.files));
    CanMakeParent(fs, t);
    MadeParentAt(fs, t, ParentOf(t));
    MadeParentAt(fs, t, t.staging);
    assert View(g, a, next) == View(g, a, call);
    forall p | t.staging <= p ensures SameAt(after, View(g, a, next), p) {
      MadeParentAt(fs, t, p);
      RootsDiffer(t, t, p);
      assert SameAt(fs, View(g, a, call), p);
    }
  }

  lemma {:induction false} MakeParentSettled(g: Setting, s: Busy, a: Store, w: nat, s': Busy, p: Path)
    requires WellFormed(a.fs) && Follows(g, s, a) && w in s.calls && w in s'.calls && s'.calls[w].t == s.calls[w].t
    requires s'.calls[w].stage.Prepared? && s'.store.fs == MadeAll(s.store.fs, ParentOf(s.calls[w].t))
    requires CanMakeAll(s.store.fs, ParentOf(s.calls[w].t)) && Own(s.calls[w].t, p)
    ensures Settled(s', a.fs, p)
  {
    var t, fs := s.calls[w].t, s.store.fs;
    OwnCall(g, s, a, w);
    Roots(g, s, a);
    MadeParentAt(fs, t, p);
    if t.staging <= p {
      assert Claims(s', w, p);
    } else if t.final <= p {
      FinalIsSame(g, s, a, t);
      assert SameAt(fs, a.fs, p);
    } else {
      assert Awaits(s', w, p);
      CanMakeParent(fs, t);
      ParentAgrees(g, s, a, t);
    }
  }

  lemma {:induction false} MakeParentFollows(g: Setting, s: Busy, a: Store, w: nat, s': Busy)
    requires WellFormed(a.fs) && Follows(g, s, a) && Moves(g, s, MakeParent(w), s')
    ensures Follows(g, s', a)
  {
    var call, fs := s.calls[w], s.store.fs;
    OwnCall(g, s, a, w);
    Roots(g, s, a);
    ParentIs(call.t);
    ParentEffect(fs, call.t);
    NoEffect(call.t, a.fs);
    PreparedHolds(g, fs, a.fs, call);
    MineAside(g, s, a, s', w);
    forall p | Own(call.t, p) ensures Settled(s', a.fs, p) {
      MakeParentSettled(g, s, a, w, s', p);
    }
    StillFollows(g, s, s', a, a, call.t, w);
  }

  // ---------------------------------------------------------------- a call starts

  lemma {:induction false} StartHolds(g: Setting, fs: Tree, a: Tree, t: Transaction, stage: Stage)
    requires SameBelow(fs, a, t.staging) && Begun(t) && IsDir(fs, t.staging)
    requires stage == Scanning({}) || stage == Removing
    ensures CallHolds(g, fs, a, Call(t, stage))
  {
    assert SameAt(fs, a, t.staging);
    forall p | t.staging <= p ensures SameAt(fs, View(g, a, Call(t, stage)), p) {
      assert SameAt(fs, a, p);
      ProtectedAt(a, {}, p);
    }
  }

  lemma {:induction false} StartFollows(g: Setting, s: Busy, a: Store, w: nat, t: Transaction, stage: Stage)
    requires Follows(g, s, a) && w !in s.calls && t in a.begun && Begun(t) && IsDir(s.store.fs, t.staging)
    requires Free(s, t) && (stage == Scanning({}) || stage == Removing)
    ensures Follows(g, s.(calls := s.calls[w := Call(t, stage)]), a)
  {
    var s' := s.(calls := s.calls[w := Call(t, stage)]);
    FreeIsSame(g, s, a, t);
    StartHolds(g, s.store.fs, a.fs, t, stage);
    NoEffect(t, a.fs);
    NoEffect(t, s.store.fs);
    forall v: nat ensures AsideAt(s, s', t, w, v) {}
    forall p | t.staging <= p ensures Settled(s', a.fs, p) {
      assert Claims(s', w, p);
    }
    InsideFollows(g, s, s', a, a, t, w);
  }

  // ---------------------------------------------------------------- a commit succeeds

  lemma {:induction false} CanPublish(g: Setting, s: Busy, a: Store, w: nat)
    requires WellFormed(a.fs) && Follows(g, s, a) && w in s.calls && s.calls[w].stage.Prepared?
    requires s.calls[w].t.final !in s.store.fs
    ensures CanCommit(g.limits, a.fs, s.calls[w].t)
  {
    var t := s.calls[w].t;
    OwnCall(g, s, a, w);
    ParentIs(t);
    IsValid(a.fs, t);
    FinalIsSame(g, s, a, t);
    assert SameAt(s.store.fs, a.fs, t.final);
    ParentAgrees(g, s, a, t);
    CanMakeParent(a.fs, t);
    RootsDiffer(t, t, []);
  }

  lemma {:induction false} PublishEffect(g: Setting, fs: Tree, t: Transaction, bytes: Bytes)
    requires WellFormed(fs) && Begun(t) && CanCommit(g.limits, fs, t)
    ensures Effect(t, fs, Published(fs, t, bytes))
  {
    PublishedWellFormed(fs, t, bytes);
    ParentIs(t);
    forall p: Path ensures EffectAt(t, fs, Published(fs, t, bytes), p) {
      if !(t.final <= p) {
        PublishedElsewhere(fs, t, bytes, p);
        if p <= ParentOf(t) && p != [] && p != ParentOf(t) { assert p == [COMMITTED]; }
      } else {
        NothingBelow(fs, t.final);
      }
    }
  }

  lemma {:induction false} RenameEffect(fs: Tree, t: Transaction)
    requires forall p | p in fs :: !(t.final <= p)
    ensures Effect(t, fs, Renamed(fs, t.staging, t.final))
  {
    forall p: Path ensures EffectAt(t, fs, Renamed(fs, t.staging, t.final), p) {
      if !(t.final <= p) { RenamedElsewhere(fs, t.staging, t.final, p); }
    }
  }

  lemma {:induction false} NothingFinal(g: Setting, s: Busy, a: Store, t: Transaction)
    requires WellFormed(a.fs) && Follows(g, s, a) && Begun(t) && t.final !in s.store.fs
    ensures t.final !in a.fs && forall p | p in s.store.fs :: !(t.final <= p)
  {
    FinalIsSame(g, s, a, t);
    assert SameAt(s.store.fs, a.fs, t.final);
    NothingBelow(a.fs, t.final);
    forall p | p in s.store.fs ensures !(t.final <= p) {
      assert t.final <= p ==> SameAt(s.store.fs, a.fs, p);
    }
  }

  /** What the rename moves is what publishing as a whole puts there. */
  lemma {:induction false} RenamedSame(g: Setting, s: Tree, a: Tree, call: Call, p: Path)
    requires WellFormed(a) && call.stage.Prepared? && CallHolds(g, s, a, call) && call.t.final <= p
    requires call.t.final !in a && forall q | q in s :: !(call.t.final <= q)
    ensures SameAt(Renamed(s, call.t.staging, call.t.final), Published(a, call.t, ManifestText(g, call)), p)
  {
    var t, bytes, q := call.t, ManifestText(g, call), p[|call.t.final|..];
    assert t.final + q == p;
    RenamedBelow(s, t.staging, t.final, q);
    PublishedMoved(a, t, bytes, q);
    assert SameAt(s, View(g, a, call), t.staging + q);
    SealedAt(a, t.staging, bytes, t.staging + q);
    assert (t.staging + q)[|t.staging|..] == q && (t.staging + [MANIFEST])[|t.staging|..] == [MANIFEST];
  }

  lemma {:induction false} RenameSettled(g: Setting, s: Tree, a: Tree, call: Call, p: Path)
    requires WellFormed(a) && call.stage.Prepared? && CallHolds(g, s, a, call) && Own(call.t, p)
    requires call.t.final !in a && forall q | q in s :: !(call.t.final <= q)
    requires ParentOf(call.t) in a ==> s[ParentOf(call.t)] == a[ParentOf(call.t)]
    ensures SameAt(Renamed(s, call.t.staging, call.t.final), Published(a, call.t, ManifestText(g, call)), p)
  {
    var t, bytes := call.t, ManifestText(g, call);
    RootsDiffer(t, t, p);
    if t.final <= p {
      RenamedSame(g, s, a, call, p);
    } else {
      RenamedElsewhere(s, t.staging, t.final, p);
      PublishedElsewhere(a, t, bytes, p);
      ParentIs(t);
    }
  }

  ghost function AfterCommit(g: Setting, a: Store, call: Call): Store
    requires call.stage.Prepared? && call.t.final != []
  {
    a.(fs := Published(a.fs, call.t, ManifestText(g, call)), committed := a.committed + {call.t})
  }

  lemma {:induction false} CommitNext(g: Setting, a: Store, call: Call)
    requires call.stage.Prepared? && call.t in a.begun && CanCommit(g.limits, a.fs, call.t)
    requires Listed(g, a.fs, call.t.staging, call.stage.files)
    ensures Next(g, a, Commit(call.t, call.stage.now, call.stage.files), AfterCommit(g, a, call))
  {}

  lemma {:induction false} RenameFollows(g: Setting, s: Busy, a: Store, w: nat, s': Busy)
    requires WellFormed(a.fs) && Follows(g, s, a) && Moves(g, s, Rename(w), s')
    ensures s.calls[w].t.final != []
    ensures var call, a' := s.calls[w], AfterCommit(g, a, s.calls[w]);
      Next(g, a, Commit(call.t, call.stage.now, call.stage.files), a') && Follows(g, s', a')
  {
    var call, fs := s.calls[w], s.store.fs;
    var t := call.t;
    OwnCall(g, s, a, w);
    CanPublish(g, s, a, w);
    CommitNext(g, a, call);
    var a' := AfterCommit(g, a, call);
    PublishEffect(g, a.fs, t, ManifestText(g, call));
    NothingFinal(g, s, a, t);
    RenameEffect(fs, t);
    ParentAgrees(g, s, a, t);
    MineAside(g, s, a, s', w);
    forall p | Own(t, p) ensures Settled(s', a'.fs, p) {
      RenameSettled(g, fs, a.fs, call, p);
    }
    StillFollows(g, s, s', a, a', t, w);
  }

  // ---------------------------------------------------------------- a commit fails

  /** What a failed commit leaves behind. */
  ghost function Leftover(g: Setting, a: Tree, call: Call): Tree {
    if call.stage.Prepared? then MadeAll(View(g, a, call), ParentOf(call.t)) else View(g, a, call)
  }

  lemma {:induction false} ViewAt(g: Setting, a: Tree, call: Call, p: Path)
    requires !(call.t.staging <= p) && (call.stage.Scanning? ==> call.stage.done <= Artifacts(a, call.t.staging))
    ensures SameAt(a, View(g, a, call), p)
  {
    var dir := call.t.staging;
    assert p !in Artifacts(a, dir);
    match call.stage {
      case Scanning(done) => ProtectedAt(a, done, p);
      case Described(_, _) => ProtectedAt(a, Artifacts(a, dir), p);
      case Manifested(_, _) => SealedAt(a, dir, ManifestText(g, call), p);
      case Prepared(_, _) => SealedAt(a, dir, ManifestText(g, call), p);
      case Removing =>
    }
  }

  lemma {:induction false} ViewKeepsData(g: Setting, a: Tree, call: Call, p: Path)
    requires p in a && call.t.staging <= p
    requires call.stage.Manifested? || call.stage.Prepared? ==> call.t.staging + [MANIFEST] !in a
    ensures p in View(g, a, call) && (View(g, a, call)[p] == a[p] || (a[p].File? && View(g, a, call)[p] == Protect(a[p])))
  {
    var dir := call.t.staging;
    match call.stage {
      case Scanning(done) => ProtectedAt(a, done, p);
      case Described(_, _) => ProtectedAt(a, Artifacts(a, dir), p);
      case Manifested(_, _) => SealedAt(a, dir, ManifestText(g, call), p);
      case Prepared(_, _) => SealedAt(a, dir, ManifestText(g, call), p);
      case Removing =>
    }
  }

  lemma {:induction false} ViewWellFormed(g: Setting, a: Tree, call: Call)
    requires WellFormed(a) && IsDir(a, call.t.staging)
    requires call.stage.Manifested? || call.stage.Prepared? ==> call.t.staging + [MANIFEST] !in a
    ensures WellFormed(View(g, a, call))
  {
    var dir := call.t.staging;
    match call.stage {
      case Scanning(done) => ProtectedWellFormed(a, done);
      case Described(_, _) => ProtectedWellFormed(a, Artifacts(a, dir));
      case Manifested(_, _) => SealedWellFormed(a, dir, ManifestText(g, call));
      case Prepared(_, _) => SealedWellFormed(a, dir, ManifestText(g, call));
      case Removing =>
    }
  }

  lemma {:induction false} LeftoverAt(g: Setting, a: Tree, call: Call, p: Path)
    requires IsDir(a, [COMMITTED]) && Begun(call.t) && !(call.t.staging <= p)
    requires call.stage.Scanning? ==> call.stage.done <= Artifacts(a, call.t.staging)
    ensures p in a ==> p in Leftover(g, a, call) && Leftover(g, a, call)[p] == a[p]
    ensures p !in a && p in Leftover(g, a, call) ==>
      call.stage.Prepared? && p == ParentOf(call.t) && Leftover(g, a, call)[p] == Dir
    ensures call.stage.Prepared? && p == ParentOf(call.t) ==> p in Leftover(g, a, call)
  {
    ViewAt(g, a, call, p);
    if call.stage.Prepared? {
      RootsDiffer(call.t, call.t, []);
      assert call.t.staging[0] == STAGING && STAGING[0] != COMMITTED[0];
      ViewAt(g, a, call, [COMMITTED]);
      MadeParentAt(View(g, a, call), call.t, p);
    }
  }

  lemma {:induction false} LeftoverBelow(g: Setting, a: Tree, call: Call, p: Path)
    requires IsDir(a, [COMMITTED]) && Begun(call.t) && call.t.staging <= p
    ensures SameAt(View(g, a, call), Leftover(g, a, call), p)
  {
    if call.stage.Prepared? {
      assert call.t.staging[0] == STAGING && STAGING[0] != COMMITTED[0];
      ViewAt(g, a, call, [COMMITTED]);
      MadeParentAt(View(g, a, call), call.t, p);
      RootsDiffer(call.t, call.t, p);
    }
  }

  lemma {:induction false} LeftoverWellFormed(g: Setting, a: Tree, call: Call)
    requires WellFormed(a) && Begun(call.t) && IsDir(a, call.t.staging)
    requires call.stage.Manifested? || call.stage.Prepared? ==> call.t.staging + [MANIFEST] !in a
    requires call.stage.Prepared? ==> ParentOf(call.t) in a ==> a[ParentOf(call.t)].Dir?
    ensures WellFormed(Leftover(g, a, call))
  {
    ViewWellFormed(g, a, call);
    if call.stage.Prepared? {
      RootsDiffer(call.t, call.t, []);
      ViewAt(g, a, call, ParentOf(call.t));
      CanMakeParent(View(g, a, call), call.t);
      BegunNames(call.t);
      assert ParentOf(call.t)[0] == call.t.final[0] && ParentOf(call.t)[1] == call.t.final[1];
      MadeAllWellFormed(View(g, a, call), ParentOf(call.t));
    }
  }

  lemma {:induction false} GivesUpNext(g: Setting, a: Store, call: Call)
    requires WellFormed(a.fs) && Begun(call.t) && call.t in a.begun && IsDir(a.fs, call.t.staging)
    requires !CanCommit(g.limits, a.fs, call.t)
    requires call.stage.Scanning? ==> call.stage.done <= Artifacts(a.fs, call.t.staging)
    requires call.stage.Manifested? || call.stage.Prepared? ==> call.t.staging + [MANIFEST] !in a.fs
    requires call.stage.Prepared? ==> ParentOf(call.t) in a.fs ==> a.fs[ParentOf(call.t)].Dir?
    ensures Next(g, a, CommitFails(call.t), a.(fs := Leftover(g, a.fs, call)))
  {
    var t, after := call.t, Leftover(g, a.fs, call);
    LeftoverWellFormed(g, a.fs, call);
    IsValid(a.fs, t);
    assert OnlyInside(a.fs, after, t.staging, t.final) by {
      forall p | p in a.fs && !(t.staging <= p) ensures p in after && after[p] == a.fs[p] {
        LeftoverAt(g, a.fs, call, p);
      }
      forall p | p in after && p !in a.fs && !(t.staging <= p) ensures p < t.final && after[p].Dir? {
        LeftoverAt(g, a.fs, call, p);
      }
    }
    assert KeepsData(a.fs, after, t.staging) by {
      forall p | p in a.fs && t.staging <= p
        ensures p in after && (after[p] == a.fs[p] || (a.fs[p].File? && after[p] == Protect(a.fs[p])))
      {
        ViewKeepsData(g, a.fs, call, p);
        LeftoverBelow(g, a.fs, call, p);
      }
    }
  }

  lemma {:induction false} GivesUpRightly(g: Setting, s: Busy, a: Store, w: nat)
    requires WellFormed(a.fs) && Follows(g, s, a) && w in s.calls && Obstructed(g, s.store.fs, s.calls[w])
    ensures !CanCommit(g.limits, a.fs, s.calls[w].t)
  {
    var call, fs := s.calls[w], s.store.fs;
    var t := call.t;
    OwnCall(g, s, a, w);
    Roots(g, s, a);
    ParentIs(t);
    match call.stage {
      case Scanning(done) =>
        ScanningAlike(fs, a.fs, done, t.staging);
        SamePublishable(g, a.fs, fs, t.staging);
      case Described(_, _) => StagingIsMade(fs, t);
      case Manifested(_, _) =>
        CanMakeParent(fs, t);
        CanMakeParent(a.fs, t);
        ParentAgrees(g, s, a, t);
      case Prepared(_, _) =>
        FinalIsSame(g, s, a, t);
        assert SameAt(fs, a.fs, t.final);
      case Removing =>
    }
  }

  lemma {:induction false} StagingIsMade(fs: Tree, t: Transaction)
    requires Begun(t) && IsDir(fs, [STAGING]) && IsDir(fs, t.staging)
    ensures CanMakeAll(fs, t.staging)
  {
    assert t.staging[..1] == [STAGING] && t.staging[..2] == t.staging;
    forall i | 0 < i <= |t.staging| ensures IsDir(fs, t.staging[..i]) {
      assert i == 1 || i == 2;
    }
  }

  lemma {:induction false} GiveUpSettled(g: Setting, s: Busy, s': Busy, a: Store, w: nat, p: Path)
    requires WellFormed(a.fs) && Follows(g, s, a) && w in s.calls && s'.store == s.store && Own(s.calls[w].t, p)
    requires !s.calls[w].stage.Removing? && (!s.calls[w].stage.Prepared? ==> s.calls[w].t.staging <= p)
    ensures Settled(s', Leftover(g, a.fs, s.calls[w]), p)
  {
    var call, fs := s.calls[w], s.store.fs;
    var t := call.t;
    OwnCall(g, s, a, w);
    if t.staging <= p {
      LeftoverBelow(g, a.fs, call, p);
      assert SameAt(fs, View(g, a.fs, call), p);
    } else {
      LeftoverAt(g, a.fs, call, p);
      FinalIsSame(g, s, a, t);
      ParentAgrees(g, s, a, t);
      assert t.final <= p ==> SameAt(fs, a.fs, p);
    }
  }

  lemma {:induction false} LeftoverEffect(g: Setting, a: Tree, call: Call)
    requires IsDir(a, [COMMITTED]) && Begun(call.t)
    requires call.stage.Scanning? ==> call.stage.done <= Artifacts(a, call.t.staging)
    ensures Effect(call.t, a, Leftover(g, a, call))
    ensures !call.stage.Prepared? ==> Inside(call.t, a, Leftover(g, a, call))
  {
    forall p: Path ensures EffectAt(call.t, a, Leftover(g, a, call), p) {
      if !(call.t.staging <= p) { LeftoverAt(g, a, call, p); }
    }
    if !call.stage.Prepared? {
      forall p | !(call.t.staging <= p) ensures SameAt(a, Leftover(g, a, call), p) {
        LeftoverAt(g, a, call, p);
      }
    }
  }

  lemma {:induction false} GiveUpFollows(g: Setting, s: Busy, a: Store, w: nat, s': Busy)
    requires WellFormed(a.fs) && Follows(g, s, a) && Moves(g, s, GiveUp(w), s')
    ensures var call, a' := s.calls[w], a.(fs := Leftover(g, a.fs, s.calls[w]));
      Next(g, a, CommitFails(call.t), a') && Follows(g, s', a')
  {
    var call := s.calls[w];
    var t, a' := call.t, a.(fs := Leftover(g, a.fs, call));
    OwnCall(g, s, a, w);
    GivesUpRightly(g, s, a, w);
    ParentAgrees(g, s, a, t);
    GivesUpNext(g, a, call);
    LeftoverEffect(g, a.fs, call);
    NoEffect(t, s.store.fs);
    MineAside(g, s, a, s', w);
    if call.stage.Prepared? {
      forall p | Own(t, p) ensures Settled(s', a'.fs, p) {
        GiveUpSettled(g, s, s', a, w, p);
      }
      StillFollows(g, s, s', a, a', t, w);
    } else {
      forall p | t.staging <= p ensures Settled(s', a'.fs, p) {
        GiveUpSettled(g, s, s', a, w, p);
      }
      InsideFollows(g, s, s', a, a', t, w);
    }
  }

  // ---------------------------------------------------------------- an abort ends

  lemma {:induction false} RemovedInside(fs: Tree, t: Transaction)
    ensures Inside(t, fs, RemovedAll(fs, t.staging))
  {}

  lemma {:induction false} RemoveLastFollows(g: Setting, s: Busy, a: Store, w: nat, s': Busy)
    requires Follows(g, s, a) && Moves(g, s, RemoveLast(w), s')
    ensures var t := s.calls[w].t;
      var a' := a.(fs := RemovedAll(a.fs, t.staging), aborted := a.aborted + {t});
      Next(g, a, Abort(t), a') && Follows(g, s', a')
  {
    var t := s.calls[w].t;
    var a' := a.(fs := RemovedAll(a.fs, t.staging), aborted := a.aborted + {t});
    OwnCall(g, s, a, w);
    IsValid(a.fs, t);
    RemovedInside(a.fs, t);
    RemovedInside(s.store.fs, t);
    MineAside(g, s, a, s', w);
    InsideFollows(g, s, s', a, a', t, w);
  }

  // ---------------------------------------------------------------- steps that are not interleaved

  lemma {:induction false} NoneAside(s: Busy, s': Busy, t: Transaction)
    requires Free(s, t) && s'.calls == s.calls
    ensures Aside(s, s', t, -1)
  {}

  /** The tree a, with what is below dir in s. */
  function Overlay(a: Tree, s: Tree, dir: Path): Tree {
    map p | p in a.Keys + s.Keys && (if dir <= p then p in s else p in a) :: if dir <= p then s[p] else a[p]
  }

  lemma {:induction false} OverlayWellFormed(a: Tree, s: Tree, dir: Path)
    requires WellFormed(a) && WellFormed(s) && |dir| > 1 && IsDir(a, dir) && IsDir(s, dir)
    ensures WellFormed(Overlay(a, s, dir))
  {
    var after := Overlay(a, s, dir);
    forall p, i | p in after && 0 < i < |p| ensures IsDir(after, p[..i]) {
      if dir <= p[..i] {
        PrefixTransitive(dir, p[..i], p);
        assert IsDir(s, p[..i]);
      } else if dir <= p {
        assert p[..i] == dir[..i] && IsDir(a, dir[..i]);
      } else {
        assert IsDir(a, p[..i]);
      }
    }
    assert IsDir(a, [STAGING]) && IsDir(a, [COMMITTED]);
  }

  lemma {:induction false} BeginFollows(g: Setting, s: Busy, a: Store, t: Transaction, s': Busy)
    requires Follows(g, s, a) && Moves(g, s, Whole(Begin(t)), s')
    ensures var a' := a.(fs := a.fs[t.staging := Dir], begun := a.begun + {t});
      Next(g, a, Begin(t), a') && Follows(g, s', a')
  {
    var a' := a.(fs := a.fs[t.staging := Dir], begun := a.begun + {t});
    assert Free(s, t) by {
      forall w | w in s.calls ensures s.calls[w].t.id != t.id { OwnCall(g, s, a, w); }
    }
    FreeIsSame(g, s, a, t);
    assert SameAt(s.store.fs, a.fs, t.staging);
    NoneAside(s, s', t);
    forall p | t.staging <= p ensures Settled(s', a'.fs, p) {
      assert SameAt(s.store.fs, a.fs, p);
    }
    assert Inside(t, s.store.fs, s'.store.fs) && Inside(t, a.fs, a'.fs);
    InsideFollows(g, s, s', a, a', t, -1);
  }

  lemma {:induction false} OverlayWrites(s: Tree, after: Tree, a: Tree, dir: Path)
    requires WellFormed(a) && |dir| > 1 && SameAt(s, a, dir) && IsDir(a, dir) && WritesInside(s, after, dir)
    ensures WritesInside(a, Overlay(a, after, dir), dir)
  {
    OverlayWellFormed(a, after, dir);
    forall p | !(dir < p)
      ensures var o := Overlay(a, after, dir); (p in a <==> p in o) && (p in a ==> a[p] == o[p])
    {
      assert dir <= p ==> p == dir;
    }
  }

  lemma {:induction false} WriteInside(s: Tree, after: Tree, t: Transaction)
    requires WritesInside(s, after, t.staging)
    ensures Inside(t, s, after)
  {
    forall p | !(t.staging <= p) ensures SameAt(s, after, p) {
      assert !(t.staging < p);
    }
  }

  lemma {:induction false} OverlayInside(a: Tree, after: Tree, t: Transaction)
    ensures Inside(t, a, Overlay(a, after, t.staging))
    ensures SameBelow(after, Overlay(a, after, t.staging), t.staging)
  {}

  lemma {:induction false} WriteFollows(g: Setting, s: Busy, a: Store, t: Transaction, s': Busy)
    requires WellFormed(a.fs) && Follows(g, s, a) && Moves(g, s, Whole(Write(t)), s') && Free(s, t) && Begun(t)
    ensures var a' := a.(fs := Overlay(a.fs, s'.store.fs, t.staging));
      Next(g, a, Write(t), a') && Follows(g, s', a')
  {
    var after := s'.store.fs;
    var a' := a.(fs := Overlay(a.fs, after, t.staging));
    FreeIsSame(g, s, a, t);
    assert SameAt(s.store.fs, a.fs, t.staging);
    OverlayWrites(s.store.fs, after, a.fs, t.staging);
    WriteInside(s.store.fs, after, t);
    OverlayInside(a.fs, after, t);
    NoneAside(s, s', t);
    forall p | t.staging <= p ensures Settled(s', a'.fs, p) {
      assert SameAt(after, a'.fs, p);
    }
    InsideFollows(g, s, s', a, a', t, -1);
  }

  lemma {:induction false} OtherWholeFollows(g: Setting, s: Busy, a: Store, step: Step, s': Busy)
    requires Follows(g, s, a) && Moves(g, s, Whole(step), s') && !step.Begin? && !step.Write?
    ensures s' == s
  {}

  // ---------------------------------------------------------------- every run is a run of whole operations

  /** What a move does to the store of whole operations: nothing, or the one step it echoes. */
  ghost predicate Echoed(g: Setting, a: Store, steps: seq<Step>, a': Store) {
    if steps == [] then a' == a else |steps| == 1 && Next(g, a, steps[0], a')
  }

  lemma {:induction false} MiddleMoveFollows(g: Setting, s: Busy, a: Store, move: Move, s': Busy)
    requires WellFormed(a.fs) && Follows(g, s, a) && Moves(g, s, move, s')
    requires move.Chmod? || move.Describe? || move.WriteManifest? || move.MakeParent? || move.Unlink?
    ensures Follows(g, s', a)
  {
    match move {
      case Chmod(w, p) => ChmodFollows(g, s, a, w, p, s');
      case Describe(w, now, files) => DescribeFollows(g, s, a, w, now, files, s');
      case WriteManifest(w) => WriteManifestFollows(g, s, a, w, s');
      case MakeParent(w) => MakeParentFollows(g, s, a, w, s');
      case Unlink(w, p) => UnlinkFollows(g, s, a, w, p, s');
    }
  }

  lemma {:induction false} LastMoveFollows(g: Setting, s: Busy, a: Store, move: Move, s': Busy) returns (a': Store)
    requires WellFormed(a.fs) && Follows(g, s, a) && Moves(g, s, move, s')
    requires move.Rename? || move.GiveUp? || move.RemoveLast?
    ensures Echoed(g, a, Echo(s, move), a') && Follows(g, s', a')
  {
    var call := s.calls[move.w];
    if move.Rename? {
      RenameFollows(g, s, a, move.w, s');
      a' := AfterCommit(g, a, call);
    } else if move.GiveUp? {
      GiveUpFollows(g, s, a, move.w, s');
      a' := a.(fs := Leftover(g, a.fs, call));
    } else {
      RemoveLastFollows(g, s, a, move.w, s');
      a' := a.(fs := RemovedAll(a.fs, call.t.staging), aborted := a.aborted + {call.t});
    }
  }

  lemma {:induction false} FirstMoveFollows(g: Setting, s: Busy, a: Store, move: Move, s': Busy) returns (a': Store)
    requires Inv(a) && Follows(g, s, a) && Moves(g, s, move, s') && OneAtATime(s, move)
    requires move.Whole? || move.Scan? || move.Remove?
    ensures Echoed(g, a, Echo(s, move), a') && Follows(g, s', a')
  {
    a' := a;
    match move {
      case Scan(w, t) => StartFollows(g, s, a, w, t, Scanning({}));
      case Remove(w, t) => StartFollows(g, s, a, w, t, Removing);
      case Whole(step) =>
        if step.Begin? {
          BeginFollows(g, s, a, step.t, s');
          a' := a.(fs := a.fs[step.t.staging := Dir], begun := a.begun + {step.t});
        } else if step.Write? {
          WriteFollows(g, s, a, step.t, s');
          a' := a.(fs := Overlay(a.fs, s'.store.fs, step.t.staging));
        } else {
          OtherWholeFollows(g, s, a, step, s');
        }
    }
  }

  lemma {:induction false} MoveFollows(g: Setting, s: Busy, a: Store, move: Move, s': Busy) returns (a': Store)
    requires Inv(a) && Follows(g, s, a) && Moves(g, s, move, s') && OneAtATime(s, move)
    ensures Echoed(g, a, Echo(s, move), a') && Follows(g, s', a')
  {
    if move.Whole? || move.Scan? || move.Remove? {
      a' := FirstMoveFollows(g, s, a, move, s');
    } else if move.Rename? || move.GiveUp? || move.RemoveLast? {
      a' := LastMoveFollows(g, s, a, move, s');
    } else {
      a' := a;
      MiddleMoveFollows(g, s, a, move, s');
    }
  }

  /** In whole, after the operations that the first i moves echo, the store is what states[i] follows. */
  ghost predicate FollowsAt(g: Setting, states: seq<Busy>, moves: seq<Move>, whole: seq<Store>, i: nat)
    requires i <= |moves| < |states|
  {
    |Echoes(states, moves, i)| < |whole| && Follows(g, states[i], whole[|Echoes(states, moves, i)|])
  }

  lemma {:induction false} EchoesGrow(states: seq<Busy>, moves: seq<Move>, i: nat, k: nat)
    requires i <= k <= |moves| < |states|
    ensures Echoes(states, moves, i) <= Echoes(states, moves, k)
    decreases k
  {
    if i < k { EchoesGrow(states, moves, i, k - 1); }
  }

  lemma {:induction false} IdleFollows(g: Setting)
    ensures Follows(g, IDLE, EMPTY)
  {}

  /** Commit and Abort are atomic as far as anyone can tell: in any interleaving of their system calls with at most
      one call per transaction under way, the store follows a run of whole operations, each in the order of the
      moves that complete it. */
  lemma {:induction false} Refines(g: Setting, states: seq<Busy>, moves: seq<Move>, k: nat) returns (whole: seq<Store>)
    requires Moving(g, states, moves) && Orderly(states, moves) && k <= |moves|
    ensures Run(g, whole, Echoes(states, moves, k))
    ensures forall i | 0 <= i <= k :: FollowsAt(g, states, moves, whole, i)
  {
    if k == 0 {
      whole := [EMPTY];
      IdleFollows(g);
    } else {
      var before := Refines(g, states, moves, k - 1);
      var steps, n := Echoes(states, moves, k - 1), |Echoes(states, moves, k - 1)|;
      RunInv(g, before, steps, n);
      assert FollowsAt(g, states, moves, before, k - 1);
      assert Moves(g, states[k - 1], moves[k - 1], states[k]) && OneAtATime(states[k - 1], moves[k - 1]);
      var a := MoveFollows(g, states[k - 1], before[n], moves[k - 1], states[k]);
      whole := RunOn(g, before, steps, Echo(states[k - 1], moves[k - 1]), a);
      forall i | 0 <= i <= k ensures FollowsAt(g, states, moves, whole, i) {
        if i < k {
          EchoesGrow(states, moves, i, k - 1);
          assert FollowsAt(g, states, moves, before, i);
        }
      }
    }
  }

  lemma {:induction false} RunOn(g: Setting, before: seq<Store>, steps: seq<Step>, more: seq<Step>, a: Store)
    returns (whole: seq<Store>)
    requires Run(g, before, steps) && |more| <= 1 && Echoed(g, before[|steps|], more, a)
    ensures Run(g, whole, steps + more) && before <= whole && whole[|steps + more|] == a
  {
    if more == [] {
      whole := before;
      assert steps + more == steps;
    } else {
      RunMore(g, before, steps, more[0], a);
      whole := before + [a];
      assert more == [more[0]];
    }
  }
}
