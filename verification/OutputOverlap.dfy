/** What holds however the system calls of different transactions interleave, and what one transaction's must not do. */
module OutputOverlap {
  import opened Digests
  import opened Sums
  import opened Paths
  import opened OutputTree
  import opened Outputs
  import opened OutputIntegrity
  import opened OutputRoundTrip
  import opened OutputRuns
  import opened OutputCalls
  import opened OutputRefinement
  import opened OutputExamples

  /** When no call is under way, the store is one that whole operations make. */
  lemma {:induction false} RestIsWhole(g: Setting, s: Busy, a: Store)
    requires Follows(g, s, a) && s.calls == map[]
    ensures s.store == a
  {
    forall p: Path ensures SameAt(s.store.fs, a.fs, p) {
      assert Settled(s, a.fs, p);
    }
    assert s.store.fs.Keys == a.fs.Keys by {
      forall p ensures p in s.store.fs <==> p in a.fs { assert SameAt(s.store.fs, a.fs, p); }
    }
    assert s.store.fs == a.fs by {
      forall p | p in a.fs ensures s.store.fs[p] == a.fs[p] { assert SameAt(s.store.fs, a.fs, p); }
    }
  }

  lemma {:induction false} AboveFinal(t: Transaction, p: Path)
    requires Begun(t) && p <= t.final && p != t.final
    ensures p == [] || p == [COMMITTED] || p == ParentOf(t)
  {
    assert p == t.final[..|p|];
  }

  lemma {:induction false} CommittedSameAt(g: Setting, s: Busy, a: Store, t: Transaction, p: Path)
    requires WellFormed(a.fs) && Begun(t) && IsDir(a.fs, t.final) && Follows(g, s, a)
    requires p <= t.final || t.final <= p
    ensures SameAt(a.fs, s.store.fs, p)
  {
    if t.final <= p {
      FinalIsSame(g, s, a, t);
      assert SameAt(s.store.fs, a.fs, p);
    } else {
      AboveFinal(t, p);
      Roots(g, s, a);
      ParentAgrees(g, s, a, t);
      if p == ParentOf(t) { PrefixDir(a.fs, t.final, p); }
    }
  }

  lemma {:induction false} CommittedSame(g: Setting, s: Busy, a: Store, t: Transaction)
    requires Inv(a) && Follows(g, s, a) && t in a.committed
    ensures SameDirectory(a.fs, s.store.fs, t.final) && SameDirectory(s.store.fs, a.fs, t.final)
  {
    var fs, after := a.fs, s.store.fs;
    forall p | p <= t.final || t.final <= p
      ensures (p in fs <==> p in after) && (p in fs ==> fs[p] == after[p])
    {
      CommittedSameAt(g, s, a, t, p);
      assert SameAt(fs, after, p);
    }
  }

  /** The whole operations behind a run, up to move j, and where move i left them. */
  lemma {:induction false} Behind(g: Setting, states: seq<Busy>, moves: seq<Move>, i: nat, j: nat)
    returns (whole: seq<Store>, m: nat, n: nat)
    requires Moving(g, states, moves) && Orderly(states, moves) && i <= j <= |moves|
    ensures Run(g, whole, Echoes(states, moves, j)) && m <= n == |Echoes(states, moves, j)|
    ensures Follows(g, states[i], whole[m]) && Follows(g, states[j], whole[n]) && Inv(whole[m]) && Inv(whole[n])
    ensures m == |Echoes(states, moves, i)| && Echoes(states, moves, i) <= Echoes(states, moves, j)
  {
    whole := Refines(g, states, moves, j);
    m, n := |Echoes(states, moves, i)|, |Echoes(states, moves, j)|;
    EchoesGrow(states, moves, i, j);
    assert FollowsAt(g, states, moves, whole, i) && FollowsAt(g, states, moves, whole, j);
    RunInv(g, whole, Echoes(states, moves, j), m);
    RunInv(g, whole, Echoes(states, moves, j), n);
  }

  lemma {:induction false} SameDirectoryTransitive(a: Tree, b: Tree, c: Tree, root: Path)
    requires SameDirectory(a, b, root) && SameDirectory(b, c, root)
    ensures SameDirectory(a, c, root)
  {}

  /** A published directory never changes, whatever the calls of other transactions are in the middle of. */
  lemma {:induction false} PublishedStays(g: Setting, states: seq<Busy>, moves: seq<Move>, i: nat, j: nat, t: Transaction)
    requires Moving(g, states, moves) && Orderly(states, moves) && i <= j <= |moves|
    requires t in states[i].store.committed
    ensures t in states[j].store.committed && IsDir(states[j].store.fs, t.final)
    ensures SameDirectory(states[i].store.fs, states[j].store.fs, t.final)
    ensures WithinLimits(g.limits, states[j].store.fs, t.final)
  {
    var whole, m, n := Behind(g, states, moves, i, j);
    var steps := Echoes(states, moves, j);
    PublishedForever(g, whole, steps, m, n, t);
    PublishedWithinLimits(g, whole, steps, n, t);
    CommittedSame(g, states[i], whole[m], t);
    CommittedSame(g, states[j], whole[n], t);
    SameDirectoryTransitive(states[i].store.fs, whole[m].fs, whole[n].fs, t.final);
    SameDirectoryTransitive(states[i].store.fs, whole[n].fs, states[j].store.fs, t.final);
    SameDirectorySameLimits(g.limits, whole[n].fs, states[j].store.fs, t.final);
  }

  lemma {:induction false} SameAcceptance(c: Codec, fs: Tree, after: Tree, output: DependencyOutput)
    requires SameDirectory(fs, after, output.commitPath) && SameDirectory(after, fs, output.commitPath)
    ensures Accepts(c, fs, output) <==> Accepts(c, after, output)
  {
    if Accepts(c, fs, output) { AcceptanceIsLocal(c, fs, after, output); }
    if Accepts(c, after, output) { AcceptanceIsLocal(c, after, fs, output); }
  }

  /** Sealing a directory changes no artifact's path. */
  lemma {:induction false} SamePaths(c: Codec, fs: Tree, a: Tree, dir: Path, bytes: Bytes)
    requires SameBelow(fs, Sealed(a, dir, bytes), dir)
    ensures PathsTrimmed(fs, dir) <==> PathsTrimmed(a, dir)
    ensures PathsLegible(c, fs, dir) <==> PathsLegible(c, a, dir)
  {
    forall p ensures IsArtifact(fs, dir, p) <==> IsArtifact(a, dir, p) {
      if dir <= p {
        assert SameAt(fs, Sealed(a, dir, bytes), p);
        SealedAt(a, dir, bytes, p);
      }
    }
  }

  lemma {:induction false} RenameEchoes(states: seq<Busy>, moves: seq<Move>, i: nat)
    requires i < |moves| < |states| && moves[i].Rename?
    requires moves[i].w in states[i].calls && states[i].calls[moves[i].w].stage.Prepared?
    ensures var call := states[i].calls[moves[i].w];
      Echoes(states, moves, i + 1) ==
        Echoes(states, moves, i) + [Commit(call.t, call.stage.now, call.stage.files)]
  {}

  /** What a rename published verifies ever after, during whatever calls, exactly under the conditions that hold for
      whole commits. */
  lemma {:induction false} RenamedVerifies(g: Setting, states: seq<Busy>, moves: seq<Move>, i: nat, j: nat, call: Call)
    requires Moving(g, states, moves) && Orderly(states, moves) && i < j <= |moves|
    requires moves[i].Rename? && moves[i].w in states[i].calls && call == states[i].calls[moves[i].w]
    requires call.stage.Prepared? && call.t.createdAt != 0 && call.stage.now != 0
    requires Sound(g.codec) && g.limits.maxBytes < TWO_64
    ensures var t, fs := call.t, states[i].store.fs;
      Accepts(g.codec, states[j].store.fs, OutputOf(t.agentID, ResultOf(t, call.stage.files))) <==>
        && |ManifestText(g, call)| <= MANIFEST_CAP && PathsTrimmed(fs, t.staging) && PathsLegible(g.codec, fs, t.staging)
  {
    var t, files := call.t, call.stage.files;
    var output := OutputOf(t.agentID, ResultOf(t, files));
    var whole, m, n := Behind(g, states, moves, i, j);
    var steps := Echoes(states, moves, j);
    RenameEchoes(states, moves, i);
    EchoesGrow(states, moves, i + 1, j);
    assert steps[m] == Commit(t, call.stage.now, files);
    CommittedVerifiesForever(g, whole, steps, m, n);
    OwnCall(g, states[i], whole[m], moves[i].w);
    SamePaths(g.codec, states[i].store.fs, whole[m].fs, t.staging, ManifestText(g, call));
    assert Next(g, whole[m], steps[m], whole[m + 1]);
    PublishedForever(g, whole, steps, m + 1, n, t);
    CommittedSame(g, states[j], whole[n], t);
    SameAcceptance(g.codec, whole[n].fs, states[j].store.fs, output);
  }

  // ---------------------------------------------------------------- one place at a time

  /** No identifier is given out twice. */
  ghost predicate FreshMove(s: Busy, move: Move) {
    move.Whole? ==> Fresh(s.store, move.step)
  }

  ghost predicate FreshMoves(states: seq<Busy>, moves: seq<Move>, k: nat)
    requires k <= |moves| < |states|
  {
    forall i | 0 <= i < k :: FreshMove(states[i], moves[i])
  }

  lemma {:induction false} FreshEchoes(g: Setting, states: seq<Busy>, moves: seq<Move>, whole: seq<Store>, k: nat)
    requires k <= |moves| < |states| && FreshMoves(states, moves, k)
    requires forall i | 0 <= i <= k :: FollowsAt(g, states, moves, whole, i)
    ensures |Echoes(states, moves, k)| < |whole|
    ensures forall m | 0 <= m < |Echoes(states, moves, k)| :: Fresh(whole[m], Echoes(states, moves, k)[m])
  {
    assert FollowsAt(g, states, moves, whole, k);
    if k > 0 {
      FreshEchoes(g, states, moves, whole, k - 1);
      assert FollowsAt(g, states, moves, whole, k - 1) && FreshMove(states[k - 1], moves[k - 1]);
    }
  }

  lemma {:induction false} ShownSame(g: Setting, s: Busy, a: Store, t: Transaction)
    requires Inv(a) && Follows(g, s, a) && t in a.begun && Shows(a, t)
    ensures Shows(s.store, t)
  {
    assert Begun(t);
    FinalIsSame(g, s, a, t);
    assert SameAt(s.store.fs, a.fs, t.final);
    if w: nat :| Claims(s, w, t.staging) {
      OwnCall(g, s, a, w);
      assert s.calls[w].t.staging == t.staging;
    } else {
      assert Settled(s, a.fs, t.staging);
      assert STAGING[0] != COMMITTED[0];
      Unawaited(s, t.staging);
    }
  }

  lemma {:induction false} FreshMovesShow(g: Setting, states: seq<Busy>, moves: seq<Move>, k: nat)
    requires Moving(g, states, moves) && Orderly(states, moves) && k <= |moves| && FreshMoves(states, moves, k)
    ensures OnePlaceEach(states[k].store)
  {
    var whole := Refines(g, states, moves, k);
    var steps, n := Echoes(states, moves, k), |Echoes(states, moves, k)|;
    FreshEchoes(g, states, moves, whole, k);
    ExactlyOnePlace(g, whole, steps, n);
    RunInv(g, whole, steps, n);
    assert FollowsAt(g, states, moves, whole, k);
    forall t | t in states[k].store.begun ensures Shows(states[k].store, t) {
      ShownSame(g, states[k], whole[n], t);
    }
  }

  lemma {:induction false} ReuseShows(g: Setting, s: Busy, a: Store, move: Move, s': Busy)
    requires Inv(a) && Follows(g, s, a) && Moves(g, s, move, s') && !FreshMove(s, move) && OnePlaceEach(s.store)
    ensures !OnePlaceEach(s'.store)
  {
    var u :| u in s.store.begun && u.id == move.step.t.id;
    assert Begun(u) && Shows(s.store, u);
    StagedAgain(s.store, s'.store, u);
    assert u in s'.store.begun;
  }

  /** At every moment of every orderly run each transaction is where its history says, in the middle of whatever
      calls, exactly when no identifier is given out twice. */
  lemma {:induction false} OnePlaceAtEveryMoment(g: Setting, states: seq<Busy>, moves: seq<Move>)
    requires Moving(g, states, moves) && Orderly(states, moves)
    ensures (forall i | 0 <= i <= |moves| :: OnePlaceEach(states[i].store)) <==> FreshMoves(states, moves, |moves|)
  {
    if FreshMoves(states, moves, |moves|) {
      forall i | 0 <= i <= |moves| ensures OnePlaceEach(states[i].store) {
        FreshMovesShow(g, states, moves, i);
      }
    }
    if forall i | 0 <= i <= |moves| :: OnePlaceEach(states[i].store) {
      forall i | 0 <= i < |moves| ensures FreshMove(states[i], moves[i]) {
        var whole, m, n := Behind(g, states, moves, i, i);
        assert Moves(g, states[i], moves[i], states[i + 1]) && OnePlaceEach(states[i + 1].store);
        if !FreshMove(states[i], moves[i]) { ReuseShows(g, states[i], whole[m], moves[i], states[i + 1]); }
      }
    }
  }

  // ---------------------------------------------------------------- two calls on one transaction

  lemma {:induction false} MovingMore(g: Setting, states: seq<Busy>, moves: seq<Move>, move: Move, s': Busy)
    requires Moving(g, states, moves) && Moves(g, states[|moves|], move, s')
    ensures Moving(g, states + [s'], moves + [move])
    ensures Orderly(states, moves) && OneAtATime(states[|moves|], move) ==> Orderly(states + [s'], moves + [move])
  {
    var more, longer := states + [s'], moves + [move];
    forall i | 0 <= i < |longer| ensures Moves(g, more[i], longer[i], more[i + 1]) {
      if i < |moves| { assert Moves(g, states[i], moves[i], states[i + 1]); }
    }
    if Orderly(states, moves) && OneAtATime(states[|moves|], move) {
      forall i | 0 <= i < |longer| ensures OneAtATime(more[i], longer[i]) {
        if i < |moves| { assert OneAtATime(states[i], moves[i]); }
      }
    }
  }

  /** The states in which goroutine v aborts t while goroutine w is about to write the manifest of t. */
  function Aborting(s: Busy, t: Transaction, v: nat): Busy {
    s.(calls := s.calls[v := Call(t, Removing)])
  }

  function Aborted(s: Busy, t: Transaction, v: nat): Busy {
    Busy(s.store.(fs := RemovedAll(s.store.fs, t.staging), aborted := s.store.aborted + {t}),
         Aborting(s, t, v).calls - {v})
  }

  function Rewritten(g: Setting, s: Busy, w: nat): Busy
    requires w in s.calls && s.calls[w].stage.Described?
  {
    var call := s.calls[w];
    Sets(s, w, Manifested(call.stage.now, call.stage.files), Written(s.store.fs, call.t.staging, ManifestText(g, call)))
  }

  lemma {:induction false} AbortMoves(g: Setting, s: Busy, t: Transaction, v: nat)
    requires v !in s.calls && t in s.store.begun && Begun(t) && IsDir(s.store.fs, t.staging)
    ensures Moves(g, s, Remove(v, t), Aborting(s, t, v))
    ensures Moves(g, Aborting(s, t, v), RemoveLast(v), Aborted(s, t, v))
    ensures Aborted(s, t, v).calls == s.calls
  {
    IsValid(s.store.fs, t);
  }

  lemma {:induction false} RewriteMoves(g: Setting, s: Busy, w: nat)
    requires w in s.calls && s.calls[w].stage.Described? && Begun(s.calls[w].t)
    requires IsDir(s.store.fs, [STAGING]) && s.calls[w].t.staging !in s.store.fs
    ensures Moves(g, s, WriteManifest(w), Rewritten(g, s, w))
    ensures s.calls[w].t.staging in Rewritten(g, s, w).store.fs
  {
    var dir := s.calls[w].t.staging;
    assert dir[..1] == [STAGING] && dir[..2] == dir;
    forall i | 0 < i <= |dir| ensures dir[..i] in s.store.fs ==> s.store.fs[dir[..i]].Dir? {
      assert i == 1 || i == 2;
    }
    assert dir in Prefixes(dir);
  }

  lemma {:induction false} CallStands(g: Setting, states: seq<Busy>, moves: seq<Move>, w: nat)
    requires Moving(g, states, moves) && Orderly(states, moves) && w in states[|moves|].calls
    ensures var s, t := states[|moves|], states[|moves|].calls[w].t;
      Begun(t) && t in s.store.begun && IsDir(s.store.fs, t.staging) && IsDir(s.store.fs, [STAGING])
  {
    var whole, m, n := Behind(g, states, moves, |moves|, |moves|);
    OwnCall(g, states[|moves|], whole[n], w);
    Roots(g, states[|moves|], whole[n]);
  }

  lemma {:induction false} Overlap(g: Setting, s: Busy, w: nat, v: nat) returns (s1: Busy, s2: Busy, s3: Busy)
    requires v !in s.calls && w in s.calls && s.calls[w].stage.Described?
    requires Begun(s.calls[w].t) && s.calls[w].t in s.store.begun
    requires IsDir(s.store.fs, s.calls[w].t.staging) && IsDir(s.store.fs, [STAGING])
    ensures Moves(g, s, Remove(v, s.calls[w].t), s1) && Moves(g, s1, RemoveLast(v), s2)
    ensures Moves(g, s2, WriteManifest(w), s3)
    ensures var t := s.calls[w].t;
      t in s3.store.aborted && t.staging in s3.store.fs && t in s3.store.begun
  {
    var t := s.calls[w].t;
    s1, s2 := Aborting(s, t, v), Aborted(s, t, v);
    AbortMoves(g, s, t, v);
    assert !(t.staging <= [STAGING]);
    RewriteMoves(g, s2, w);
    s3 := Rewritten(g, s2, w);
  }

  lemma {:induction false} MovingThree(g: Setting, states: seq<Busy>, moves: seq<Move>, a: Move, b: Move, c: Move,
                                       s1: Busy, s2: Busy, s3: Busy)
    requires Moving(g, states, moves)
    requires Moves(g, states[|moves|], a, s1) && Moves(g, s1, b, s2) && Moves(g, s2, c, s3)
    ensures Moving(g, states + [s1, s2, s3], moves + [a, b, c])
    ensures Orderly(states, moves) && OneAtATime(states[|moves|], a) && OneAtATime(s1, b) && OneAtATime(s2, c) ==>
      Orderly(states + [s1, s2, s3], moves + [a, b, c])
  {
    MovingMore(g, states, moves, a, s1);
    MovingMore(g, states + [s1], moves + [a], b, s2);
    MovingMore(g, states + [s1] + [s2], moves + [a] + [b], c, s3);
    assert states + [s1] + [s2] + [s3] == states + [s1, s2, s3];
    assert moves + [a] + [b] + [c] == moves + [a, b, c];
  }

  /** Between the scan of a commit and its manifest another goroutine can abort the transaction; the manifest's
      MkdirAll then brings the staging directory back. */
  lemma {:induction false} OverlapBreaksPlaces(g: Setting, states: seq<Busy>, moves: seq<Move>, w: nat, v: nat)
    returns (after: seq<Busy>)
    requires Moving(g, states, moves) && Orderly(states, moves) && v !in states[|moves|].calls
    requires w in states[|moves|].calls && states[|moves|].calls[w].stage.Described?
    ensures var t := states[|moves|].calls[w].t;
      && |after| == 3 && Moving(g, states + after, moves + [Remove(v, t), RemoveLast(v), WriteManifest(w)])
      && t in after[2].store.aborted && t.staging in after[2].store.fs && !OnePlaceEach(after[2].store)
  {
    var s, t := states[|moves|], states[|moves|].calls[w].t;
    CallStands(g, states, moves, w);
    var s1, s2, s3 := Overlap(g, s, w, v);
    MovingThree(g, states, moves, Remove(v, t), RemoveLast(v), WriteManifest(w), s1, s2, s3);
    after := [s1, s2, s3];
    assert !Shows(s3.store, t);
  }

  // ---------------------------------------------------------------- such a run

  ghost const SCANNED := WRITTEN.fs[FILE := Protect(WRITTEN.fs[FILE])]
  const FILE: Path := ONE.staging + ["f"]

  function Doing(s: Store, fs: Tree, stage: Stage): Busy {
    Busy(s.(fs := fs), map[0 := Call(ONE, stage)])
  }

  lemma {:induction false} FileIsWritten()
    ensures FILE in WRITTEN.fs && Artifacts(WRITTEN.fs, ONE.staging) == {FILE} && FILE in Artifacts(WRITTEN.fs, ONE.staging)
    ensures IsDir(WRITTEN.fs, ONE.staging) && Begun(ONE)
  {
    NamesFit();
    OneBegun();
    assert "f" in NAMES && FILE in PathsOf(NAMES);
    forall p | p in PathsOf(NAMES) ensures p == FILE {}
    StagedAt(NAMES, FILE);
    StagedAt(NAMES, ONE.staging);
    assert FILE[2] == "f" && |"f"| == 1 && |MANIFEST| > 1;
    assert FILE != ONE.staging + [MANIFEST] by { assert (ONE.staging + [MANIFEST])[2] == MANIFEST; }
    forall p ensures IsArtifact(WRITTEN.fs, ONE.staging, p) <==> p == FILE { StagedAt(NAMES, p); }
  }

  lemma {:induction false} ScannedListed(g: Setting)
    requires g.limits.maxFiles >= 1
    ensures FILE in WRITTEN.fs && FILE in Artifacts(WRITTEN.fs, ONE.staging)
    ensures Artifacts(SCANNED, ONE.staging) == {FILE}
    ensures Listed(g, SCANNED, ONE.staging, Records(g.codec, NAMES))
  {
    FileIsWritten();
    NamesFit();
    StagedCommits(g.codec, g.limits, NAMES);
    assert Listed(g, WRITTEN.fs, ONE.staging, Records(g.codec, NAMES));
    assert ScansAlike(WRITTEN.fs, SCANNED, ONE.staging) by {
      forall p | ONE.staging <= p ensures AlikeAt(WRITTEN.fs, SCANNED, p) {}
    }
    SameArtifacts(WRITTEN.fs, SCANNED, ONE.staging);
    SameListed(g, WRITTEN.fs, SCANNED, ONE.staging, Records(g.codec, NAMES));
  }

  lemma {:induction false} FirstMoves(g: Setting)
    ensures Moves(g, IDLE, Whole(Begin(ONE)), Busy(BEGUN, map[]))
    ensures Moves(g, Busy(BEGUN, map[]), Whole(Write(ONE)), Busy(WRITTEN, map[]))
    ensures Moves(g, Busy(WRITTEN, map[]), Scan(0, ONE), Doing(WRITTEN, WRITTEN.fs, Scanning({})))
  {
    FirstBegin(g);
    FirstWrite(g);
    FileIsWritten();
    IsValid(WRITTEN.fs, ONE);
  }

  lemma {:induction false} ChmodMoves(g: Setting, store: Store, fs: Tree, done: set<Path>, p: Path)
    requires IsArtifact(fs, ONE.staging, p) && p !in done
    ensures Moves(g, Doing(store, fs, Scanning(done)), Chmod(0, p),
                  Doing(store, fs[p := Protect(fs[p])], Scanning(done + {p})))
  {}

  lemma {:induction false} DescribeMoves(g: Setting, store: Store, fs: Tree, now: int, files: seq<FileRecord>)
    requires Listed(g, fs, ONE.staging, files)
    ensures Moves(g, Doing(store, fs, Scanning(Artifacts(fs, ONE.staging))), Describe(0, now, files),
                  Doing(store, fs, Described(now, files)))
  {}

  lemma {:induction false} ScanMoves(g: Setting, files: seq<FileRecord>)
    requires g.limits.maxFiles >= 1 && files == Records(g.codec, NAMES)
    ensures Moves(g, Doing(WRITTEN, WRITTEN.fs, Scanning({})), Chmod(0, FILE), Doing(WRITTEN, SCANNED, Scanning({FILE})))
    ensures Moves(g, Doing(WRITTEN, SCANNED, Scanning({FILE})), Describe(0, 1, files),
                  Doing(WRITTEN, SCANNED, Described(1, files)))
  {
    ScannedListed(g);
    ChmodMoves(g, WRITTEN, WRITTEN.fs, {}, FILE);
    assert {} + {FILE} == {FILE};
    DescribeMoves(g, WRITTEN, SCANNED, 1, files);
  }

  ghost predicate BeginsAtMostFirst(moves: seq<Move>) {
    forall i | 0 < i < |moves| :: moves[i].Whole? ==> !moves[i].step.Begin?
  }

  lemma {:induction false} Onward(g: Setting, states: seq<Busy>, moves: seq<Move>, s: Busy, move: Move, s': Busy)
    returns (more: seq<Busy>, longer: seq<Move>)
    requires Moving(g, states, moves) && Orderly(states, moves) && BeginsAtMostFirst(moves) && s == states[|moves|]
    requires Moves(g, s, move, s') && OneAtATime(s, move)
    requires move.Whole? && move.step.Begin? ==> moves == []
    ensures Moving(g, more, longer) && Orderly(more, longer) && BeginsAtMostFirst(longer) && more[|longer|] == s'
  {
    MovingMore(g, states, moves, move, s');
    more, longer := states + [s'], moves + [move];
  }

  lemma {:induction false} WrittenRun(g: Setting) returns (states: seq<Busy>, moves: seq<Move>)
    ensures Moving(g, states, moves) && Orderly(states, moves) && BeginsAtMostFirst(moves)
    ensures states[|moves|] == Busy(WRITTEN, map[])
  {
    FirstMoves(g);
    states, moves := Onward(g, [IDLE], [], IDLE, Whole(Begin(ONE)), Busy(BEGUN, map[]));
    states, moves := Onward(g, states, moves, Busy(BEGUN, map[]), Whole(Write(ONE)), Busy(WRITTEN, map[]));
  }

  lemma {:induction false} ScanningRun(g: Setting) returns (states: seq<Busy>, moves: seq<Move>)
    ensures Moving(g, states, moves) && Orderly(states, moves) && BeginsAtMostFirst(moves)
    ensures states[|moves|] == Doing(WRITTEN, WRITTEN.fs, Scanning({}))
  {
    states, moves := WrittenRun(g);
    FirstMoves(g);
    states, moves := Onward(g, states, moves, Busy(WRITTEN, map[]), Scan(0, ONE), Doing(WRITTEN, WRITTEN.fs, Scanning({})));
  }

  lemma {:induction false} ChmodRun(g: Setting) returns (states: seq<Busy>, moves: seq<Move>)
    requires g.limits.maxFiles >= 1
    ensures Moving(g, states, moves) && Orderly(states, moves) && BeginsAtMostFirst(moves)
    ensures states[|moves|] == Doing(WRITTEN, SCANNED, Scanning({FILE}))
  {
    states, moves := ScanningRun(g);
    ScanMoves(g, Records(g.codec, NAMES));
    states, moves := Onward(g, states, moves, Doing(WRITTEN, WRITTEN.fs, Scanning({})), Chmod(0, FILE),
                            Doing(WRITTEN, SCANNED, Scanning({FILE})));
  }

  lemma {:induction false} DescribedRun(g: Setting) returns (states: seq<Busy>, moves: seq<Move>)
    requires g.limits.maxFiles >= 1
    ensures Moving(g, states, moves) && Orderly(states, moves) && BeginsAtMostFirst(moves)
    ensures states[|moves|] == Doing(WRITTEN, SCANNED, Described(1, Records(g.codec, NAMES)))
  {
    var files := Records(g.codec, NAMES);
    states, moves := ChmodRun(g);
    ScanMoves(g, files);
    states, moves := Onward(g, states, moves, Doing(WRITTEN, SCANNED, Scanning({FILE})), Describe(0, 1, files),
                            Doing(WRITTEN, SCANNED, Described(1, files)));
  }

  lemma {:induction false} OneBeginIsFreshMove(states: seq<Busy>, moves: seq<Move>)
    requires |states| == |moves| + 1 && states[0] == IDLE && BeginsAtMostFirst(moves)
    ensures FreshMoves(states, moves, |moves|)
  {}

  /** Begin, write, and an abort in the middle of the commit: the transaction is aborted and in staging. */
  lemma {:induction false} AbortDuringCommit(g: Setting) returns (states: seq<Busy>, moves: seq<Move>)
    requires g.limits.maxFiles >= 1
    ensures Moving(g, states, moves) && FreshMoves(states, moves, |moves|) && !Orderly(states, moves)
    ensures ONE in states[|moves|].store.aborted && ONE.staging in states[|moves|].store.fs
  {
    var before, first := DescribedRun(g);
    var after := OverlapBreaksPlaces(g, before, first, 0, 1);
    states, moves := before + after, first + [Remove(1, ONE), RemoveLast(1), WriteManifest(0)];
    assert states[|first|] == before[|first|] && moves[|first|] == Remove(1, ONE);
    assert !OneAtATime(states[|first|], moves[|first|]);
    OneBeginIsFreshMove(states, moves);
  }
}
