/** What acceptance by the verifier says about a tree. */
module OutputIntegrity {
  import opened Digests
  import opened Sums
  import opened Text
  import opened Paths
  import opened OutputTree
  import opened Outputs

  /** Where a record's file lies. */
  function Target(root: Path, r: FileRecord): Path {
    root + if ValidatePath(r.path).Ok? then ValidatePath(r.path).value else []
  }

  ghost function Targets(root: Path, files: seq<FileRecord>): set<Path> {
    set r | r in files :: Target(root, r)
  }

  lemma {:induction false} TargetsDiffer(c: Codec, fs: Tree, root: Path, a: FileRecord, b: FileRecord)
    requires RecordHolds(c, fs, root, a) && RecordHolds(c, fs, root, b) && !SamePath(a, b)
    ensures Target(root, a) != Target(root, b)
  {
    assert Target(root, a)[|root|..] == ValidatePath(a.path).value;
    assert Target(root, b)[|root|..] == ValidatePath(b.path).value;
  }

  lemma {:induction false} RecordsHoldPrefix(c: Codec, fs: Tree, root: Path, files: seq<FileRecord>)
    requires RecordsHold(c, fs, root, files) && files != []
    ensures RecordsHold(c, fs, root, files[..|files| - 1])
    ensures Target(root, files[|files| - 1]) !in Targets(root, files[..|files| - 1])
    ensures Targets(root, files) == Targets(root, files[..|files| - 1]) + {Target(root, files[|files| - 1])}
    ensures Weight(fs, Target(root, files[|files| - 1])) == files[|files| - 1].sizeBytes
  {
    var n := |files| - 1;
    var last := files[n];
    assert RecordHolds(c, fs, root, last);
    forall r | r in files[..n] ensures Target(root, r) != Target(root, last) {
      var i :| 0 <= i < n && files[i] == r;
      TargetsDiffer(c, fs, root, r, last);
    }
    assert files == files[..n] + [last];
  }

  /** Records that hold name as many different files as there are records, of the recorded total size. */
  lemma {:induction false} TargetsCount(c: Codec, fs: Tree, root: Path, files: seq<FileRecord>)
    requires RecordsHold(c, fs, root, files)
    ensures |Targets(root, files)| == |files|
    ensures SizeOf(fs, Targets(root, files)) == TotalSize(files)
  {
    if files == [] {
      assert Targets(root, files) == {};
    } else {
      var front := files[..|files| - 1];
      RecordsHoldPrefix(c, fs, root, files);
      TargetsCount(c, fs, root, front);
      SizeOfAdd(fs, Targets(root, front), Target(root, files[|files| - 1]));
    }
  }

  lemma {:induction false} TargetIsArtifact(c: Codec, fs: Tree, root: Path, r: FileRecord)
    requires RecordHolds(c, fs, root, r)
    ensures IsArtifact(fs, root, Target(root, r))
  {
    ValidatedNames(r.path);
    var p := ValidatePath(r.path).value;
    assert (root + p)[|root|..] == p && (root + [MANIFEST])[|root|..] == [MANIFEST];
  }

  /** The final count of Verify always agrees: the artifacts are exactly the listed files. */
  lemma {:induction false} ArtifactsAreTargets(c: Codec, fs: Tree, root: Path, files: seq<FileRecord>)
    requires RecordsHold(c, fs, root, files) && AllAccountedFor(fs, root, files)
    ensures Artifacts(fs, root) == Targets(root, files)
    ensures |Artifacts(fs, root)| == |files|
    ensures SizeOf(fs, Artifacts(fs, root)) == TotalSize(files)
  {
    forall p | p in Artifacts(fs, root) ensures p in Targets(root, files) {
      assert AccountedFor(fs, root, files, p);
      var r :| r in files && ValidatePath(r.path) == Ok(Relative(root, p));
      assert Target(root, r) == p;
    }
    forall p | p in Targets(root, files) ensures p in Artifacts(fs, root) {
      var r :| r in files && p == Target(root, r);
      TargetIsArtifact(c, fs, root, r);
    }
    TargetsCount(c, fs, root, files);
  }

  /** The manifest of an accepted directory is the one of that very output, and complete. */
  lemma {:induction false} AcceptedManifest(c: Codec, fs: Tree, output: DependencyOutput)
    requires Accepts(c, fs, output)
    ensures HasManifest(c, fs, output.commitPath)
    ensures var m := ManifestAt(c, fs, output.commitPath);
      && m.version == 1
      && m.agentID == output.agentID && m.transactionID == output.transactionID
      && m.fileCount == output.fileCount == |m.files| && m.totalBytes == output.totalBytes
      && m.createdAt != 0 && m.committedAt != 0
      && |fs[output.manifestPath].data| <= 16777216
      && c.decode(fs[output.manifestPath].data) == Some(m)
  {}

  /** What is accepted lies where its owner's commits go, and nowhere else. */
  lemma {:induction false} AcceptedPlace(c: Codec, fs: Tree, output: DependencyOutput)
    requires Accepts(c, fs, output)
    ensures SafeAgentID(output.agentID) && Trim(output.transactionID) != ""
    ensures output.manifestPath == output.commitPath + [MANIFEST]
    ensures IsName(output.transactionID) ==> output.commitPath == [COMMITTED, output.agentID, output.transactionID]
    ensures [COMMITTED] <= output.commitPath
    ensures forall i | 0 < i <= |output.commitPath| ::
      output.commitPath[..i] in fs && !fs[output.commitPath[..i]].Symlink?
    ensures IsDir(fs, output.commitPath) && output.manifestPath in fs && fs[output.manifestPath].File?
  {
    SafeIsName(output.agentID);
    if IsName(output.transactionID) {
      CleanNames([COMMITTED], output.agentID, output.transactionID);
      assert [COMMITTED] + [output.agentID, output.transactionID] == [COMMITTED, output.agentID, output.transactionID];
    }
  }

  /** The bytes of a manifest belong to one output: no other output is accepted on them, in whatever tree. */
  lemma {:induction false} ManifestBelongsToOne(c: Codec, fs: Tree, output: DependencyOutput,
                                                after: Tree, other: DependencyOutput)
    requires Accepts(c, fs, output) && Accepts(c, after, other)
    requires fs[output.manifestPath] == after[other.manifestPath]
    ensures output == other
  {
    AcceptedManifest(c, fs, output);
    AcceptedManifest(c, after, other);
  }

  lemma {:induction false} DigestLetters(s: string)
    requires IsDigest(s)
    ensures |s| == 64
    ensures forall i | 0 <= i < |s| :: '0' <= s[i] <= '9' || 'a' <= s[i] <= 'f' || 'A' <= s[i] <= 'F'
  {
    forall i | 0 <= i < |s| ensures '0' <= s[i] <= '9' || 'a' <= s[i] <= 'f' || 'A' <= s[i] <= 'F' {
      assert IsHex(s[i]);
    }
  }

  /** Each recorded file is there, is read-only, and has the recorded size, digest and mode. */
  lemma {:induction false} AcceptedRecord(c: Codec, fs: Tree, output: DependencyOutput, r: FileRecord)
    requires Accepts(c, fs, output) && r in ManifestAt(c, fs, output.commitPath).files
    ensures ValidatePath(r.path).Ok?
    ensures var p := output.commitPath + ValidatePath(r.path).value;
      && p in fs && fs[p].File? && p != output.manifestPath
      && |fs[p].data| == r.sizeBytes && c.hash(fs[p].data) == r.sha256 && IsDigest(r.sha256)
      && ParseOctal(r.mode) == Some(fs[p].mode) && !Writable(fs[p].mode)
    ensures |r.sha256| == 64
    ensures forall i | 0 <= i < |r.sha256| ::
      var x := r.sha256[i]; '0' <= x <= '9' || 'a' <= x <= 'f' || 'A' <= x <= 'F'
  {
    assert RecordHolds(c, fs, output.commitPath, r);
    DigestLetters(r.sha256);
    var q := ValidatePath(r.path).value;
    assert (output.commitPath + q)[|output.commitPath|..] == q
        && (output.commitPath + [MANIFEST])[|output.commitPath|..] == [MANIFEST];
  }

  /** An accepted directory holds exactly the manifest's files, with the recorded contents, and no links. */
  lemma {:induction false} AcceptedTree(c: Codec, fs: Tree, output: DependencyOutput)
    requires Accepts(c, fs, output)
    ensures var root := output.commitPath;
      var m := ManifestAt(c, fs, root);
      && Artifacts(fs, root) == Targets(root, m.files)
      && |Artifacts(fs, root)| == output.fileCount
      && SizeOf(fs, Artifacts(fs, root)) % TWO_64 == output.totalBytes
      && (forall p | p in fs && Below(root, p) :: fs[p].Dir? || fs[p].File?)
      && (forall p | p in Artifacts(fs, root) :: !Writable(fs[p].mode))
  {
    var root := output.commitPath;
    var m := ManifestAt(c, fs, root);
    ArtifactsAreTargets(c, fs, root, m.files);
    forall p | p in fs && Below(root, p) ensures fs[p].Dir? || fs[p].File? {
      assert AccountedFor(fs, root, m.files, p);
    }
    forall p | p in Artifacts(fs, root) ensures !Writable(fs[p].mode) {
      var r :| r in m.files && p == Target(root, r);
      assert RecordHolds(c, fs, root, r);
    }
  }

  lemma {:induction false} AcceptedEntry(c: Codec, fs: Tree, output: DependencyOutput, p: Path)
    requires Accepts(c, fs, output)
    requires Below(output.commitPath, p) && p != output.manifestPath
    ensures p in fs && !fs[p].Dir? ==> p in Artifacts(fs, output.commitPath)
    ensures p in Artifacts(fs, output.commitPath) ==> p in fs && fs[p].File?
  {
    AcceptedTree(c, fs, output);
  }

  /** No two different contents found at the same place have the same digest. */
  ghost predicate NoCollision(c: Codec, fs: Tree, after: Tree, root: Path) {
    forall p | IsArtifact(fs, root, p) && IsArtifact(after, root, p) ::
      c.hash(fs[p].data) == c.hash(after[p].data) ==> fs[p].data == after[p].data
  }

  /** Somewhere below root a file's bytes or mode changed, or something other than a directory came or went. */
  ghost predicate Tampered(fs: Tree, after: Tree, root: Path, p: Path) {
    && Below(root, p) && p != root + [MANIFEST]
    && !(p in fs && p in after && fs[p] == after[p])
    && ((p in fs && !fs[p].Dir?) || (p in after && !after[p].Dir?))
  }

  /** Two accepted trees with the same manifest bytes have the same artifacts, bytes and modes. */
  lemma {:induction false} SameManifestSameFiles(c: Codec, fs: Tree, after: Tree, output: DependencyOutput)
    requires Accepts(c, fs, output) && Accepts(c, after, output)
    requires fs[output.manifestPath] == after[output.manifestPath]
    requires NoCollision(c, fs, after, output.commitPath)
    ensures Artifacts(fs, output.commitPath) == Artifacts(after, output.commitPath)
    ensures forall p | p in Artifacts(fs, output.commitPath) :: fs[p] == after[p]
  {
    var root := output.commitPath;
    var files := ManifestAt(c, fs, root).files;
    assert ManifestAt(c, after, root).files == files;
    ArtifactsAreTargets(c, fs, root, files);
    ArtifactsAreTargets(c, after, root, files);
    forall p | p in Artifacts(fs, root) ensures fs[p] == after[p] {
      var r :| r in files && p == Target(root, r);
      assert RecordHolds(c, fs, root, r) && RecordHolds(c, after, root, r);
      assert IsArtifact(fs, root, p) && p in Artifacts(after, root);
    }
  }

  lemma {:induction false} TamperedIsRejected(c: Codec, fs: Tree, after: Tree, output: DependencyOutput, p: Path)
    requires Accepts(c, fs, output)
    requires output.manifestPath in after && fs[output.manifestPath] == after[output.manifestPath]
    requires NoCollision(c, fs, after, output.commitPath)
    requires Tampered(fs, after, output.commitPath, p)
    ensures !Accepts(c, after, output)
  {
    if Accepts(c, after, output) {
      SameManifestSameFiles(c, fs, after, output);
      AcceptedEntry(c, fs, output, p);
      AcceptedEntry(c, after, output, p);
    }
  }

  lemma {:induction false} UntouchedRecord(c: Codec, fs: Tree, after: Tree, root: Path, r: FileRecord)
    requires RecordHolds(c, fs, root, r) && forall p :: !Tampered(fs, after, root, p)
    ensures RecordHolds(c, after, root, r)
  {
    TargetIsArtifact(c, fs, root, r);
    assert !Tampered(fs, after, root, Target(root, r));
  }

  lemma {:induction false} UntouchedIsAccepted(c: Codec, fs: Tree, after: Tree, output: DependencyOutput)
    requires Accepts(c, fs, output)
    requires output.manifestPath in after && fs[output.manifestPath] == after[output.manifestPath]
    requires PlainPath(after, output.commitPath) && IsDir(after, output.commitPath)
    requires forall p :: !Tampered(fs, after, output.commitPath, p)
    ensures Accepts(c, after, output)
  {
    var root := output.commitPath;
    var m := ManifestAt(c, fs, root);
    assert HasManifest(c, after, root) && ManifestAt(c, after, root) == m;
    forall r | r in m.files ensures RecordHolds(c, after, root, r) {
      UntouchedRecord(c, fs, after, root, r);
    }
    forall p | p in after && Below(root, p) ensures AccountedFor(after, root, m.files, p) {
      assert !Tampered(fs, after, root, p);
      assert p in fs ==> AccountedFor(fs, root, m.files, p);
    }
  }

  /** With the manifest left alone, a tree is accepted again exactly when the way to the directory is still plain
      and no artifact was edited, added, deleted, replaced or given another mode. */
  lemma {:induction false} TamperEvident(c: Codec, fs: Tree, after: Tree, output: DependencyOutput)
    requires Accepts(c, fs, output)
    requires output.manifestPath in after && fs[output.manifestPath] == after[output.manifestPath]
    requires NoCollision(c, fs, after, output.commitPath)
    ensures Accepts(c, after, output) <==>
      && PlainPath(after, output.commitPath) && IsDir(after, output.commitPath)
      && forall p :: !Tampered(fs, after, output.commitPath, p)
  {
    if p :| Tampered(fs, after, output.commitPath, p) {
      TamperedIsRejected(c, fs, after, output, p);
    } else if PlainPath(after, output.commitPath) && IsDir(after, output.commitPath) {
      UntouchedIsAccepted(c, fs, after, output);
    }
  }

  /** A symbolic link or a special file anywhere below the directory is rejected, whatever the manifest says. */
  lemma {:induction false} LinksRejected(c: Codec, fs: Tree, output: DependencyOutput, p: Path)
    requires p in fs && Below(output.commitPath, p) && (fs[p].Symlink? || fs[p].Other?)
    ensures !Accepts(c, fs, output)
  {
    if Accepts(c, fs, output) {
      AcceptedTree(c, fs, output);
    }
  }

  /** Acceptance looks only at the directory, what is below it, and what is above it. */
  ghost predicate SameDirectory(fs: Tree, after: Tree, root: Path) {
    forall p | p <= root || root <= p :: (p in fs <==> p in after) && (p in fs ==> fs[p] == after[p])
  }

  lemma {:induction false} AcceptanceIsLocal(c: Codec, fs: Tree, after: Tree, output: DependencyOutput)
    requires Accepts(c, fs, output) && SameDirectory(fs, after, output.commitPath)
    ensures Accepts(c, after, output)
  {
    var root := output.commitPath;
    assert root <= root + [MANIFEST];
    assert forall i | 0 < i <= |root| :: root[..i] <= root;
    var m := ManifestAt(c, fs, root);
    assert HasManifest(c, after, root) && ManifestAt(c, after, root) == m;
    forall r | r in m.files ensures RecordHolds(c, after, root, r) {
      assert RecordHolds(c, fs, root, r);
      assert root <= root + ValidatePath(r.path).value;
    }
    forall p | p in after && Below(root, p) ensures AccountedFor(after, root, m.files, p) {
      assert AccountedFor(fs, root, m.files, p);
    }
  }
}
