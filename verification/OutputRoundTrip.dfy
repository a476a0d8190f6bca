/** Publishing a transaction and verifying what was published. */
module OutputRoundTrip {
  import opened Digests
  import opened Sums
  import opened Text
  import opened Paths
  import opened OutputTree
  import opened Outputs

  /** The shape of the transactions that Begin returns. */
  predicate Begun(t: Transaction) {
    && SafeAgentID(t.agentID)
    && IsName(t.id) && Trim(t.id) == t.id && AllSafe(t.id)
    && t.staging == [STAGING, t.id]
    && t.final == [COMMITTED, t.agentID, t.id]
  }

  lemma {:induction false} BegunNames(t: Transaction)
    requires Begun(t)
    ensures IsNames(t.final)
  {
    SafeIsName(t.agentID);
    assert IsName(COMMITTED);
  }

  lemma {:induction false} BegunPaths(t: Transaction)
    requires Begun(t)
    ensures FinalOf(t.agentID, t.id) == t.final
    ensures PushAll([COMMITTED], Split(t.agentID)) == Parent(t.final) == [COMMITTED, t.agentID]
    ensures Parent(t.staging) == [STAGING]
    ensures !(t.staging <= t.final) && !(t.final <= t.staging)
    ensures IsNames(t.final)
  {
    BegunNames(t);
    assert IsName(t.final[1]);
    CleanNames([COMMITTED], t.agentID, t.id);
    assert [COMMITTED] + [t.agentID] == [COMMITTED, t.agentID];
    assert [COMMITTED] + [t.agentID, t.id] == t.final;
    assert STAGING[0] != COMMITTED[0];
    assert t.staging[0] != t.final[0];
  }

  // ---------------------------------------------------------------- the tree after publishing

  lemma {:induction false} PrefixDir(fs: Tree, p: Path, q: Path)
    requires WellFormed(fs) && p in fs && q < p && q != []
    ensures IsDir(fs, q)
  {
    assert q == p[..|q|];
  }

  lemma {:induction false} NothingBelow(fs: Tree, q: Path)
    requires WellFormed(fs) && q != [] && q !in fs
    ensures forall p | p in fs :: !(q <= p)
  {
    forall p | p in fs ensures !(q <= p) {
      if q <= p && q != p { PrefixDir(fs, p, q); }
    }
  }

  lemma {:induction false} SealedAt(fs: Tree, staging: Path, bytes: Bytes, p: Path)
    ensures var after := Sealed(fs, staging, bytes);
      && (p in after <==> p in fs || p == staging + [MANIFEST])
      && after[staging + [MANIFEST]] == File(bytes, READ_ONLY)
      && (p in fs && p != staging + [MANIFEST] ==>
        after[p] == if IsArtifact(fs, staging, p) then Protect(fs[p]) else fs[p])
  {}

  lemma {:induction false} MadeAllAt(fs: Tree, dir: Path, p: Path)
    ensures p in fs ==> p in MadeAll(fs, dir) && MadeAll(fs, dir)[p] == fs[p]
    ensures p !in fs && p != [] && p <= dir ==> p in MadeAll(fs, dir) && MadeAll(fs, dir)[p] == Dir
    ensures p in MadeAll(fs, dir) ==> p in fs || p <= dir
  {
    if p <= dir && p != [] {
      assert p == dir[..|p|];
      assert p in Prefixes(dir);
    }
  }

  /** The node that publishing leaves at final + q. */
  ghost predicate Moved(fs: Tree, after: Tree, t: Transaction, bytes: Bytes, q: Path) {
    && (t.final + q in after <==> t.staging + q in fs || q == [MANIFEST])
    && (q == [MANIFEST] ==> t.final + q in after && after[t.final + q] == File(bytes, READ_ONLY))
    && (q != [MANIFEST] && t.staging + q in fs && t.final + q in after ==>
      && (IsArtifact(fs, t.staging, t.staging + q) ==> after[t.final + q] == Protect(fs[t.staging + q]))
      && (!IsArtifact(fs, t.staging, t.staging + q) ==> after[t.final + q] == fs[t.staging + q]))
  }

  lemma {:induction false} PublishedMoved(fs: Tree, t: Transaction, bytes: Bytes, q: Path)
    requires WellFormed(fs) && Begun(t) && t.final !in fs
    ensures Moved(fs, Published(fs, t, bytes), t, bytes, q)
  {
    BegunPaths(t);
    var sealed := Sealed(fs, t.staging, bytes);
    var parent := Parent(t.final);
    var made := MadeAll(sealed, parent);
    NothingBelow(fs, t.final);
    forall p | p in made ensures !(t.final <= p) {
      MadeAllAt(sealed, parent, p);
      SealedAt(fs, t.staging, bytes, p);
    }
    RenamedBelow(made, t.staging, t.final, q);
    MadeAllAt(sealed, parent, t.staging + q);
    SealedAt(fs, t.staging, bytes, t.staging + q);
    assert (t.staging + q)[|t.staging|..] == q && (t.staging + [MANIFEST])[|t.staging|..] == [MANIFEST];
  }

  /** Away from the staging directory and the published one, publishing only creates missing parents. */
  lemma {:induction false} PublishedElsewhere(fs: Tree, t: Transaction, bytes: Bytes, p: Path)
    requires Begun(t) && !(t.final <= p)
    ensures var after := Published(fs, t, bytes);
      && (t.staging <= p ==> p !in after)
      && (!(t.staging <= p) && p in fs ==> p in after && after[p] == fs[p])
      && (!(t.staging <= p) && p !in fs && p in after ==> p <= Parent(t.final) && after[p] == Dir)
      && (!(t.staging <= p) && p != [] && p <= Parent(t.final) ==> p in after)
  {
    BegunPaths(t);
    var sealed := Sealed(fs, t.staging, bytes);
    var made := MadeAll(sealed, Parent(t.final));
    RenamedElsewhere(made, t.staging, t.final, p);
    MadeAllAt(sealed, Parent(t.final), p);
    SealedAt(fs, t.staging, bytes, p);
    assert t.staging <= t.staging + [MANIFEST];
  }

  lemma {:induction false} PublishedArtifact(fs: Tree, t: Transaction, bytes: Bytes, q: Path)
    requires WellFormed(fs) && Begun(t) && t.final !in fs
    ensures IsArtifact(Published(fs, t, bytes), t.final, t.final + q) <==> IsArtifact(fs, t.staging, t.staging + q)
    ensures IsArtifact(fs, t.staging, t.staging + q) ==>
      Published(fs, t, bytes)[t.final + q] == Protect(fs[t.staging + q])
  {
    PublishedMoved(fs, t, bytes, q);
    assert (t.staging + q)[|t.staging|..] == q && (t.staging + [MANIFEST])[|t.staging|..] == [MANIFEST];
    assert (t.final + q)[|t.final|..] == q && (t.final + [MANIFEST])[|t.final|..] == [MANIFEST];
  }

  lemma {:induction false} PublishedPlain(fs: Tree, t: Transaction, bytes: Bytes)
    requires WellFormed(fs) && Begun(t) && t.final !in fs
    requires IsDir(fs, t.staging) && CanMakeAll(fs, Parent(t.final))
    ensures PlainPath(Published(fs, t, bytes), t.final) && IsDir(Published(fs, t, bytes), t.final)
  {
    BegunPaths(t);
    PublishedMoved(fs, t, bytes, []);
    assert t.final + [] == t.final && t.staging + [] == t.staging;
    assert !IsArtifact(fs, t.staging, t.staging);
    forall i | 0 < i < 3 ensures IsDir(Published(fs, t, bytes), t.final[..i]) {
      PublishedParent(fs, t, bytes, i);
    }
    assert t.final[..3] == t.final;
  }

  lemma {:induction false} PublishedParent(fs: Tree, t: Transaction, bytes: Bytes, i: nat)
    requires Begun(t) && CanMakeAll(fs, Parent(t.final)) && 0 < i < 3
    ensures IsDir(Published(fs, t, bytes), t.final[..i])
  {
    BegunPaths(t);
    var p := t.final[..i];
    assert p == Parent(t.final)[..i] && p[0] == COMMITTED && t.staging[0] == STAGING;
    PublishedElsewhere(fs, t, bytes, p);
  }

  // ---------------------------------------------------------------- round trip

  /** Verify reads the paths of the tree back as themselves. */
  ghost predicate PathsTrimmed(fs: Tree, root: Path) {
    forall p | IsArtifact(fs, root, p) :: Trim(Join(Relative(root, p))) == Join(Relative(root, p))
  }

  /** ... and every name is text that the manifest's coding leaves alone. */
  ghost predicate PathsLegible(c: Codec, fs: Tree, root: Path) {
    forall p | IsArtifact(fs, root, p) :: Legible(c, Join(Relative(root, p)))
  }

  lemma {:induction false} ArtifactNames(fs: Tree, root: Path, p: Path)
    requires WellFormed(fs) && IsArtifact(fs, root, p)
    ensures Relative(root, p) != [] && IsNames(Relative(root, p))
    ensures Relative(root, p) != [MANIFEST] && root + Relative(root, p) == p
  {}

  lemma {:induction false} ProtectedMode(n: Node)
    requires n.File?
    ensures ParseOctal(ModeText(PublishedMode(n.mode))) == Some(Protect(n).mode)
    ensures !Writable(Protect(n).mode)
  {
    ModeRoundTrip(n.mode);
  }

  lemma {:induction false} PublishedRecord(c: Codec, fs: Tree, t: Transaction, bytes: Bytes, p: Path)
    requires Sound(c) && WellFormed(fs) && Begun(t) && t.final !in fs && IsArtifact(fs, t.staging, p)
    requires Trim(Join(Relative(t.staging, p))) == Join(Relative(t.staging, p))
    ensures ValidatePath(RecordAt(c, fs, t.staging, p).path) == Ok(Relative(t.staging, p))
    ensures RecordHolds(c, Published(fs, t, bytes), t.final, RecordAt(c, fs, t.staging, p))
  {
    var q := Relative(t.staging, p);
    ArtifactNames(fs, t.staging, p);
    ValidateOwnPath(q);
    PublishedArtifact(fs, t, bytes, q);
    ProtectedMode(fs[p]);
  }

  lemma {:induction false} PublishedAccounted(c: Codec, fs: Tree, t: Transaction, bytes: Bytes,
                                              files: seq<FileRecord>, p: Path)
    requires Sound(c) && WellFormed(fs) && Begun(t) && t.final !in fs
    requires forall q | q in fs && Below(t.staging, q) :: fs[q].Dir? || fs[q].File?
    requires Describes(c, fs, t.staging, files) && PathsTrimmed(fs, t.staging)
    requires p in Published(fs, t, bytes) && Below(t.final, p)
    ensures AccountedFor(Published(fs, t, bytes), t.final, files, p)
  {
    var q := Relative(t.final, p);
    RelativeBack(t.final, p);
    PublishedMoved(fs, t, bytes, q);
    PublishedArtifact(fs, t, bytes, q);
    if q != [MANIFEST] {
      assert t.staging + q in fs && Below(t.staging, t.staging + q);
      assert (t.staging + q)[|t.staging|..] == q;
      if IsArtifact(fs, t.staging, t.staging + q) {
        PublishedRecord(c, fs, t, bytes, t.staging + q);
        assert RecordAt(c, fs, t.staging, t.staging + q) in files;
      } else {
        assert (t.staging + [MANIFEST])[|t.staging|..] == [MANIFEST];
      }
    }
  }

  lemma {:induction false} PublishedRecordsHold(c: Codec, fs: Tree, t: Transaction, bytes: Bytes, files: seq<FileRecord>)
    requires Sound(c) && WellFormed(fs) && Begun(t) && t.final !in fs
    requires Describes(c, fs, t.staging, files) && PathsTrimmed(fs, t.staging)
    ensures RecordsHold(c, Published(fs, t, bytes), t.final, files)
  {
    forall r | r in files
      ensures RecordHolds(c, Published(fs, t, bytes), t.final, r)
      ensures ValidatePath(r.path).Ok? && Join(ValidatePath(r.path).value) == r.path
    {
      assert IsRecord(c, fs, t.staging, r);
      var p :| IsArtifact(fs, t.staging, p) && r == RecordAt(c, fs, t.staging, p);
      PublishedRecord(c, fs, t, bytes, p);
    }
    forall i, j | 0 <= i < j < |files| ensures !SamePath(files[i], files[j]) {
      LessIrreflexive(files[i].path);
      assert files[i] in files && files[j] in files;
    }
  }

  /** A bound on the lengths of the relative paths of a set of artifacts. */
  lemma {:induction false} LengthBound(root: Path, ps: set<Path>) returns (bound: nat)
    requires forall p | p in ps :: root <= p
    ensures forall p | p in ps :: |Join(Relative(root, p))| <= bound
  {
    if ps == {} {
      bound := 0;
    } else {
      var p :| p in ps;
      bound := LengthBound(root, ps - {p});
      if bound < |Join(Relative(root, p))| { bound := |Join(Relative(root, p))|; }
    }
  }

  /** Whatever a manifest names was listed under a path that cleans to it. */
  lemma {:induction false} NamedBy(c: Codec, fs: Tree, t: Transaction, bytes: Bytes, files: seq<FileRecord>, p: Path)
    returns (longer: Path)
    requires WellFormed(fs) && Begun(t) && t.final !in fs
    requires Describes(c, fs, t.staging, files)
    requires AllAccountedFor(Published(fs, t, bytes), t.final, files)
    requires IsArtifact(fs, t.staging, p)
    requires Trim(Join(Relative(t.staging, p))) != Join(Relative(t.staging, p))
    ensures IsArtifact(fs, t.staging, longer)
    ensures Trim(Join(Relative(t.staging, longer))) != Join(Relative(t.staging, longer))
    ensures |Join(Relative(t.staging, p))| < |Join(Relative(t.staging, longer))|
  {
    var q := Relative(t.staging, p);
    ArtifactNames(fs, t.staging, p);
    PublishedArtifact(fs, t, bytes, q);
    assert AccountedFor(Published(fs, t, bytes), t.final, files, t.final + q);
    assert Relative(t.final, t.final + q) == q;
    assert (t.final + [MANIFEST])[|t.final|..] == [MANIFEST];
    var r :| r in files && ValidatePath(r.path) == Ok(q);
    assert IsRecord(c, fs, t.staging, r);
    longer :| IsArtifact(fs, t.staging, longer) && r == RecordAt(c, fs, t.staging, longer);
    ArtifactNames(fs, t.staging, longer);
    ValidateOwnPath(Relative(t.staging, longer));
  }

  lemma {:induction false} NoUntrimmedPath(c: Codec, fs: Tree, t: Transaction, bytes: Bytes, files: seq<FileRecord>,
                                           p: Path, bound: nat)
    requires WellFormed(fs) && Begun(t) && t.final !in fs
    requires Describes(c, fs, t.staging, files)
    requires AllAccountedFor(Published(fs, t, bytes), t.final, files)
    requires IsArtifact(fs, t.staging, p)
    requires forall a | a in Artifacts(fs, t.staging) :: |Join(Relative(t.staging, a))| <= bound
    ensures Trim(Join(Relative(t.staging, p))) == Join(Relative(t.staging, p))
    decreases bound - |Join(Relative(t.staging, p))|
  {
    if Trim(Join(Relative(t.staging, p))) != Join(Relative(t.staging, p)) {
      var longer := NamedBy(c, fs, t, bytes, files, p);
      assert p in Artifacts(fs, t.staging) && longer in Artifacts(fs, t.staging);
      NoUntrimmedPath(c, fs, t, bytes, files, longer, bound);
    }
  }

  // ---------------------------------------------------------------- what the coding does to text

  lemma {:induction false} SafeIsLegible(c: Codec, s: string)
    requires Sound(c) && AllSafe(s)
    ensures Legible(c, s)
  {}

  /** Digests and modes are ASCII, so only a path can be changed. */
  lemma {:induction false} RecordSurvives(c: Codec, fs: Tree, root: Path, p: Path)
    requires Sound(c) && IsArtifact(fs, root, p) && Legible(c, Join(Relative(root, p)))
    ensures RewrittenRecord(c, RecordAt(c, fs, root, p)) == RecordAt(c, fs, root, p)
  {
    var r := RecordAt(c, fs, root, p);
    assert IsDigest(r.sha256);
    forall i | 0 <= i < |r.sha256| ensures c.legible(r.sha256[i]) {
      assert IsHex(r.sha256[i]);
    }
    assert r.mode == "0444" || r.mode == "0555";
  }

  lemma {:induction false} ManifestSurvives(c: Codec, fs: Tree, root: Path, m: Manifest)
    requires Sound(c) && Describes(c, fs, root, m.files) && PathsLegible(c, fs, root)
    requires Legible(c, m.transactionID) && Legible(c, m.agentID)
    ensures RewrittenManifest(c, m) == m
  {
    forall i | 0 <= i < |m.files| ensures RewrittenRecord(c, m.files[i]) == m.files[i] {
      assert IsRecord(c, fs, root, m.files[i]);
      var p :| IsArtifact(fs, root, p) && m.files[i] == RecordAt(c, fs, root, p);
      RecordSurvives(c, fs, root, p);
    }
    assert RewrittenManifest(c, m).files == m.files;
  }

  /** Cleaning a path brings no new characters into it. */
  lemma {:induction false} ValidatedLegible(c: Codec, path: string)
    requires Sound(c) && Legible(c, path) && ValidatePath(path).Ok?
    ensures Legible(c, Join(ValidatePath(path).value))
  {
    ValidatedLetters(path, c.legible);
  }

  /** A file whose name is rewritten is named by no record of what comes back. */
  lemma {:induction false} NamedIsLegible(c: Codec, m: Manifest, q: Path)
    requires Sound(c) && Names(RewrittenManifest(c, m).files, q)
    ensures Legible(c, Join(q))
  {
    var files := RewrittenManifest(c, m).files;
    var r :| r in files && ValidatePath(r.path) == Ok(q);
    var i :| 0 <= i < |files| && files[i] == r;
    assert r == RewrittenRecord(c, m.files[i]);
    ValidatedLegible(c, r.path);
  }

  lemma {:induction false} AcceptedIsLegible(c: Codec, fs: Tree, t: Transaction, bytes: Bytes, m: Manifest)
    requires Sound(c) && WellFormed(fs) && Begun(t) && t.final !in fs
    requires AllAccountedFor(Published(fs, t, bytes), t.final, RewrittenManifest(c, m).files)
    ensures PathsLegible(c, fs, t.staging)
  {
    var after := Published(fs, t, bytes);
    forall p | IsArtifact(fs, t.staging, p) ensures Legible(c, Join(Relative(t.staging, p))) {
      var q := Relative(t.staging, p);
      ArtifactNames(fs, t.staging, p);
      PublishedArtifact(fs, t, bytes, q);
      assert AccountedFor(after, t.final, RewrittenManifest(c, m).files, t.final + q);
      assert Relative(t.final, t.final + q) == q && t.final + q != t.final + [MANIFEST];
      NamedIsLegible(c, m, q);
    }
  }

  // ---------------------------------------------------------------- both directions

  lemma {:induction false} CommitVerifiesIf(c: Codec, fs: Tree, t: Transaction, m: Manifest)
    requires Sound(c) && WellFormed(fs) && Begun(t) && t.final !in fs
    requires IsDir(fs, t.staging) && CanMakeAll(fs, Parent(t.final))
    requires forall q | q in fs && Below(t.staging, q) :: fs[q].Dir? || fs[q].File?
    requires Describes(c, fs, t.staging, m.files) && TotalSize(m.files) % TWO_64 == m.totalBytes
    requires Legible(c, m.transactionID) && Legible(c, m.agentID)
    requires |c.encode(m)| <= MANIFEST_CAP && PathsTrimmed(fs, t.staging) && PathsLegible(c, fs, t.staging)
    ensures var after := Published(fs, t, c.encode(m));
      HasManifest(c, after, t.final) && ManifestAt(c, after, t.final) == m && ManifestHolds(c, after, t.final, m)
  {
    var bytes := c.encode(m);
    var after := Published(fs, t, bytes);
    PublishedMoved(fs, t, bytes, [MANIFEST]);
    PublishedPlain(fs, t, bytes);
    ManifestSurvives(c, fs, t.staging, m);
    PublishedRecordsHold(c, fs, t, bytes, m.files);
    forall p | p in after && Below(t.final, p) ensures AccountedFor(after, t.final, m.files, p) {
      PublishedAccounted(c, fs, t, bytes, m.files, p);
    }
  }

  lemma {:induction false} CommitVerifiesOnlyIf(c: Codec, fs: Tree, t: Transaction, m: Manifest)
    requires Sound(c) && WellFormed(fs) && Begun(t) && t.final !in fs
    requires Describes(c, fs, t.staging, m.files)
    requires Legible(c, m.transactionID) && Legible(c, m.agentID)
    requires var after := Published(fs, t, c.encode(m));
      HasManifest(c, after, t.final) && ManifestHolds(c, after, t.final, ManifestAt(c, after, t.final))
    ensures |c.encode(m)| <= MANIFEST_CAP && PathsTrimmed(fs, t.staging) && PathsLegible(c, fs, t.staging)
  {
    var bytes := c.encode(m);
    PublishedMoved(fs, t, bytes, [MANIFEST]);
    assert ManifestAt(c, Published(fs, t, bytes), t.final) == RewrittenManifest(c, m);
    AcceptedIsLegible(c, fs, t, bytes, m);
    ManifestSurvives(c, fs, t.staging, m);
    var bound := LengthBound(t.staging, Artifacts(fs, t.staging));
    forall p | IsArtifact(fs, t.staging, p)
      ensures Trim(Join(Relative(t.staging, p))) == Join(Relative(t.staging, p))
    {
      NoUntrimmedPath(c, fs, t, bytes, m.files, p, bound);
    }
  }

  lemma {:induction false} AcceptsPublished(c: Codec, fs: Tree, t: Transaction, m: Manifest, output: DependencyOutput)
    requires Sound(c) && WellFormed(fs) && Begun(t) && t.final !in fs
    requires IsDir(fs, t.staging) && CanMakeAll(fs, Parent(t.final))
    requires forall q | q in fs && Below(t.staging, q) :: fs[q].Dir? || fs[q].File?
    requires Describes(c, fs, t.staging, m.files) && TotalSize(m.files) % TWO_64 == m.totalBytes
    requires Legible(c, m.transactionID) && Legible(c, m.agentID)
    requires Addressed(output) && output.commitPath == t.final && HeaderMatches(m, output)
    ensures Accepts(c, Published(fs, t, c.encode(m)), output)
      <==> |c.encode(m)| <= MANIFEST_CAP && PathsTrimmed(fs, t.staging) && PathsLegible(c, fs, t.staging)
  {
    if |c.encode(m)| <= MANIFEST_CAP && PathsTrimmed(fs, t.staging) && PathsLegible(c, fs, t.staging) {
      CommitVerifiesIf(c, fs, t, m);
    }
    if Accepts(c, Published(fs, t, c.encode(m)), output) {
      CommitVerifiesOnlyIf(c, fs, t, m);
    }
  }

  lemma {:induction false} AddressedResult(t: Transaction, now: int, files: seq<FileRecord>)
    requires Begun(t) && t.createdAt != 0 && now != 0
    ensures var output := OutputOf(t.agentID, ResultOf(t, files));
      Addressed(output) && output.commitPath == t.final && HeaderMatches(ManifestOf(t, now, files), output)
  {
    BegunPaths(t);
  }

  /**
   * The verifier accepts what a commit has published exactly when the manifest fits its size cap and no
   * artifact's path begins or ends with white space or is not valid UTF-8: the scan records such paths as they
   * are, the verifier trims them, and the coding replaces what is not UTF-8.
   */
  lemma {:induction false} CommitVerifies(c: Codec, limits: Limits, fs: Tree, t: Transaction, now: int,
                                          files: seq<FileRecord>)
    requires Sound(c) && WellFormed(fs) && Begun(t) && CanCommit(limits, fs, t)
    requires limits.maxBytes < TWO_64 && t.createdAt != 0 && now != 0
    requires Describes(c, fs, t.staging, files) && TotalSize(files) <= limits.maxBytes
    ensures var bytes := c.encode(ManifestOf(t, now, files));
      Accepts(c, Published(fs, t, bytes), OutputOf(t.agentID, ResultOf(t, files)))
      <==> |bytes| <= MANIFEST_CAP && PathsTrimmed(fs, t.staging) && PathsLegible(c, fs, t.staging)
  {
    var m := ManifestOf(t, now, files);
    var output := OutputOf(t.agentID, ResultOf(t, files));
    assert TotalSize(m.files) % TWO_64 == m.totalBytes by { SmallModulus(TotalSize(files)); }
    assert WellFormed(fs) && IsDir(fs, t.staging) && CanMakeAll(fs, Parent(t.final)) && t.final !in fs;
    assert forall q | q in fs && Below(t.staging, q) :: fs[q].Dir? || fs[q].File?;
    SafeIsLegible(c, t.id);
    SafeIsLegible(c, t.agentID);
    AddressedResult(t, now, files);
    AcceptsPublished(c, fs, t, m, output);
  }

  lemma {:induction false} SmallModulus(n: nat)
    requires n < TWO_64
    ensures n % TWO_64 == n
  {}
}
