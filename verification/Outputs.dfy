/** What a transaction may publish, what a manifest says, and what the verifier accepts. */
module Outputs {
  import opened Digests
  import opened Sums
  import opened Text
  import opened Paths
  import opened OutputTree

  const MANIFEST_CAP := 16 * 1024 * 1024
  const MANIFEST_VERSION := 1

  datatype Limits = Limits(maxFiles: int, maxBytes: nat, allowEmpty: bool)

  datatype FileRecord = FileRecord(path: string, sha256: string, sizeBytes: nat, mode: string)

  /** Times are nanosecond counts, 0 being Go's zero time. */
  datatype Manifest = Manifest(version: int, transactionID: string, agentID: string,
                               createdAt: int, committedAt: int,
                               fileCount: int, totalBytes: nat, files: seq<FileRecord>)

  /** staging and final are cleaned absolute paths, given relative to the store root. */
  datatype Transaction = Transaction(id: string, agentID: string, staging: Path, final: Path, createdAt: int)

  datatype CommitResult = CommitResult(transactionID: string, final: Path, manifestPath: Path,
                                       fileCount: int, totalBytes: nat)

  datatype DependencyOutput = DependencyOutput(agentID: string, transactionID: string,
                                               commitPath: Path, manifestPath: Path,
                                               fileCount: int, totalBytes: nat)

  datatype Verification = Verification(manifestDigest: string, fileCount: int, totalBytes: nat)

  /** SHA-256 in lower-case hexadecimal, and the JSON coding of manifests. A character that is not legible stands
      for a byte of a file name that is not part of valid UTF-8. */
  datatype Codec = Codec(hash: Bytes -> string, encode: Manifest -> Bytes, decode: Bytes -> Option<Manifest>,
                         legible: char -> bool)

  /** What the coding writes for a character that is not legible: U+FFFD. */
  const REPLACEMENT := '\U{FFFD}'

  predicate Legible(c: Codec, s: string) {
    forall i | 0 <= i < |s| :: c.legible(s[i])
  }

  function Rewritten(c: Codec, s: string): (r: string)
    ensures Legible(c, s) ==> r == s
    ensures c.legible(REPLACEMENT) ==> Legible(c, r)
  {
    seq(|s|, i requires 0 <= i < |s| => if c.legible(s[i]) then s[i] else REPLACEMENT)
  }

  function RewrittenRecord(c: Codec, r: FileRecord): FileRecord {
    FileRecord(Rewritten(c, r.path), Rewritten(c, r.sha256), r.sizeBytes, Rewritten(c, r.mode))
  }

  /** A manifest as it comes back from its coding. */
  function RewrittenManifest(c: Codec, m: Manifest): Manifest {
    m.(transactionID := Rewritten(c, m.transactionID), agentID := Rewritten(c, m.agentID),
       files := seq(|m.files|, i requires 0 <= i < |m.files| => RewrittenRecord(c, m.files[i])))
  }

  /** Decoding inverts encoding up to what encoding does to text, which leaves ASCII alone. */
  ghost predicate Sound(c: Codec) {
    && (forall m: Manifest :: c.decode(c.encode(m)) == Some(RewrittenManifest(c, m)))
    && (forall b: Bytes :: IsDigest(c.hash(b)))
    && (forall x: char | x as int < 128 :: c.legible(x)) && c.legible(REPLACEMENT)
  }

  predicate IsAlphanumeric(c: char) {
    'A' <= c <= 'Z' || 'a' <= c <= 'z' || '0' <= c <= '9'
  }

  predicate IsSafe(c: char) {
    IsAlphanumeric(c) || c == '.' || c == '_' || c == '-'
  }

  predicate AllSafe(s: string) {
    forall i | 0 <= i < |s| :: IsSafe(s[i])
  }

  /** The expression safeAgentID. */
  predicate SafeAgentID(s: string) {
    1 <= |s| <= 128 && IsAlphanumeric(s[0]) && AllSafe(s)
  }

  lemma {:induction false} SafeIsName(s: string)
    requires s != "" && IsAlphanumeric(s[0]) && AllSafe(s)
    ensures IsName(s) && Trim(s) == s
  {
    assert '/' !in s;
    assert TrimLeft(s) == s;
    assert IsSafe(s[|s| - 1]);
  }

  lemma {:induction false} CleanNames(base: Path, a: string, b: string)
    requires IsName(a) && IsName(b)
    ensures PushAll(base, Split(a)) == base + [a]
    ensures PushAll(base, Split(a) + Split(b)) == base + [a, b]
  {
    SplitJoinName(a, []);
    SplitJoinName(b, []);
    PushNames(base, [a]);
    PushNames(base, [a, b]);
    assert [a] + [b] == [a, b];
  }

  // ---------------------------------------------------------------- publishing

  /** What scanArtifacts accepts. */
  ghost predicate Publishable(limits: Limits, fs: Tree, root: Path) {
    && root + [MANIFEST] !in fs
    && (forall p | p in fs && Below(root, p) :: fs[p].Dir? || fs[p].File?)
    && |Artifacts(fs, root)| <= limits.maxFiles
    && SizeOf(fs, Artifacts(fs, root)) <= limits.maxBytes
    && (Artifacts(fs, root) != {} || limits.allowEmpty)
  }

  function Relative(root: Path, p: Path): Path
    requires root <= p
  {
    p[|root|..]
  }

  lemma {:induction false} RelativeBack(root: Path, p: Path)
    requires root <= p
    ensures root + Relative(root, p) == p
  {}

  /** The record of the file at p, whatever permissions it had when it was written. */
  function RecordAt(c: Codec, fs: Tree, root: Path, p: Path): FileRecord
    requires p in fs && fs[p].File? && root <= p
  {
    FileRecord(Join(Relative(root, p)), c.hash(fs[p].data), |fs[p].data|, ModeText(PublishedMode(fs[p].mode)))
  }

  ghost predicate SortedByPath(files: seq<FileRecord>) {
    forall i, j | 0 <= i < j < |files| :: Less(files[i].path, files[j].path)
  }

  ghost predicate IsRecord(c: Codec, fs: Tree, root: Path, r: FileRecord) {
    exists p :: IsArtifact(fs, root, p) && r == RecordAt(c, fs, root, p)
  }

  /** files lists every artifact once, in path order. */
  ghost predicate Describes(c: Codec, fs: Tree, root: Path, files: seq<FileRecord>) {
    && SortedByPath(files)
    && (forall p | IsArtifact(fs, root, p) :: RecordAt(c, fs, root, p) in files)
    && (forall r | r in files :: IsRecord(c, fs, root, r))
  }

  function TotalSize(files: seq<FileRecord>): nat {
    if files == [] then 0 else TotalSize(files[..|files| - 1]) + files[|files| - 1].sizeBytes
  }

  /** The transaction is one this store could have begun and not finished. */
  predicate ValidTransaction(fs: Tree, t: Transaction) {
    && t.id != "" && t.agentID != "" && t.staging != [] && t.final != []
    && t.staging[..|t.staging| - 1] == [STAGING]
    && t.final[..|t.final| - 1] == PushAll([COMMITTED], Split(t.agentID))
    && IsDir(fs, t.staging)
  }

  function Parent(p: Path): Path
    requires p != []
  {
    p[..|p| - 1]
  }

  /** Exactly when Commit publishes. */
  ghost predicate CanCommit(limits: Limits, fs: Tree, t: Transaction) {
    && ValidTransaction(fs, t)
    && Publishable(limits, fs, t.staging)
    && CanMakeAll(fs, Parent(t.final))
    && t.final !in fs
    && !(t.staging <= t.final)
  }

  /** The staging directory once scanned and with its manifest in place. */
  ghost function Sealed(fs: Tree, staging: Path, manifest: Bytes): Tree {
    ProtectAll(fs, Artifacts(fs, staging))[staging + [MANIFEST] := File(manifest, READ_ONLY)]
  }

  ghost function Published(fs: Tree, t: Transaction, manifest: Bytes): Tree
    requires t.final != []
  {
    Renamed(MadeAll(Sealed(fs, t.staging, manifest), Parent(t.final)), t.staging, t.final)
  }

  function ManifestOf(t: Transaction, now: int, files: seq<FileRecord>): Manifest {
    Manifest(MANIFEST_VERSION, t.id, t.agentID, t.createdAt, now, |files|, TotalSize(files), files)
  }

  // ---------------------------------------------------------------- accepting

  /** Where Verify looks for an output. */
  function FinalOf(agentID: string, transactionID: string): Path {
    PushAll([COMMITTED], Split(agentID) + Split(transactionID))
  }

  /** No component between the committed root and the directory is missing or a symbolic link. */
  predicate PlainPath(fs: Tree, dir: Path) {
    && [COMMITTED] <= dir
    && (forall i | 0 < i <= |dir| :: dir[..i] in fs && !fs[dir[..i]].Symlink?)
  }

  predicate HeaderMatches(m: Manifest, output: DependencyOutput) {
    && m.version == MANIFEST_VERSION
    && m.agentID == output.agentID && m.transactionID == output.transactionID
    && m.createdAt != 0 && m.committedAt != 0
    && m.fileCount == |m.files|
    && output.fileCount == m.fileCount && output.totalBytes == m.totalBytes
  }

  /** The record names a file of the tree and tells the truth about it. */
  predicate RecordHolds(c: Codec, fs: Tree, root: Path, r: FileRecord) {
    && ValidatePath(r.path).Ok?
    && var p := ValidatePath(r.path).value;
    && p != [MANIFEST]
    && IsDigest(r.sha256)
    && root + p in fs && fs[root + p].File?
    && |fs[root + p].data| == r.sizeBytes
    && ParseOctal(r.mode) == Some(fs[root + p].mode)
    && !Writable(fs[root + p].mode)
    && c.hash(fs[root + p].data) == r.sha256
  }

  predicate SamePath(a: FileRecord, b: FileRecord) {
    ValidatePath(a.path) == ValidatePath(b.path)
  }

  ghost predicate RecordsHold(c: Codec, fs: Tree, root: Path, files: seq<FileRecord>) {
    && (forall r | r in files :: RecordHolds(c, fs, root, r))
    && (forall i, j | 0 <= i < j < |files| :: !SamePath(files[i], files[j]))
  }

  predicate Names(files: seq<FileRecord>, p: Path) {
    exists r | r in files :: ValidatePath(r.path) == Ok(p)
  }

  /** The walk of the committed directory finds nothing the manifest does not name. */
  predicate AccountedFor(fs: Tree, root: Path, files: seq<FileRecord>, p: Path)
    requires p in fs && root <= p
  {
    fs[p].Dir? || (fs[p].File? && (p == root + [MANIFEST] || Names(files, Relative(root, p))))
  }

  ghost predicate AllAccountedFor(fs: Tree, root: Path, files: seq<FileRecord>) {
    forall p | p in fs && Below(root, p) :: AccountedFor(fs, root, files, p)
  }

  ghost predicate ManifestHolds(c: Codec, fs: Tree, root: Path, m: Manifest) {
    && RecordsHold(c, fs, root, m.files)
    && TotalSize(m.files) % TWO_64 == m.totalBytes
    && AllAccountedFor(fs, root, m.files)
  }

  predicate Addressed(output: DependencyOutput) {
    && SafeAgentID(output.agentID) && Trim(output.transactionID) != ""
    && output.commitPath == FinalOf(output.agentID, output.transactionID)
    && output.manifestPath == output.commitPath + [MANIFEST]
  }

  predicate HasManifest(c: Codec, fs: Tree, root: Path) {
    && PlainPath(fs, root) && IsDir(fs, root)
    && root + [MANIFEST] in fs && fs[root + [MANIFEST]].File?
    && |fs[root + [MANIFEST]].data| <= MANIFEST_CAP
    && c.decode(fs[root + [MANIFEST]].data).Some?
  }

  function ManifestAt(c: Codec, fs: Tree, root: Path): Manifest
    requires HasManifest(c, fs, root)
  {
    c.decode(fs[root + [MANIFEST]].data).value
  }

  /** Exactly when Verify succeeds. */
  ghost predicate Accepts(c: Codec, fs: Tree, output: DependencyOutput) {
    && Addressed(output)
    && HasManifest(c, fs, output.commitPath)
    && HeaderMatches(ManifestAt(c, fs, output.commitPath), output)
    && ManifestHolds(c, fs, output.commitPath, ManifestAt(c, fs, output.commitPath))
  }

  /** dependencyOutputFromACB on the fields a commit leaves behind. */
  function OutputOf(agentID: string, r: CommitResult): DependencyOutput {
    DependencyOutput(agentID, r.transactionID, r.final, r.manifestPath, r.fileCount, r.totalBytes)
  }

  function ResultOf(t: Transaction, files: seq<FileRecord>): CommitResult {
    CommitResult(t.id, t.final, t.final + [MANIFEST], |files|, TotalSize(files))
  }
}
