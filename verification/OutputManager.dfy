/** The transactional output store: begin, commit, abort and verify on one file system. */
module OutputManager {
  import opened Digests
  import opened Sums
  import opened Text
  import opened Paths
  import opened OutputTree
  import opened Outputs
  import opened OutputIntegrity
  import opened OutputRoundTrip
  import opened OutputShape

  const ATTEMPTS := 16

  datatype BeginError = InvalidAgent | NoUniqueID

  datatype CommitError =
    | Incomplete | OutsideStore | OutsideNamespace | NotADirectory
    | Reserved | LinkFound(path: Path) | NotRegular(path: Path) | TooManyFiles | TooManyBytes | NoOutput
    | ParentBlocked | AlreadyCommitted | RenameRefused

  datatype RecordFault =
    | InvalidPath | ListsItself | Duplicate | InvalidDigest | Missing | IsLink | Irregular
    | SizeMismatch | InvalidMode | ModeMismatch | StillWritable | DigestMismatch

  datatype VerifyError =
    | InvalidOwner | NoTransaction | WrongDirectory | WrongManifestPath | Unreachable | NotDirectory
    | NoManifest | ManifestTooLarge | Undecodable | HeaderMismatch
    | BadRecord(index: nat, fault: RecordFault) | TotalMismatch | Stray(path: Path) | CountMismatch

  // ---------------------------------------------------------------- transaction identifiers

  function Decimal(n: nat): (s: string)
    ensures s != "" && forall i | 0 <= i < |s| :: '0' <= s[i] <= '9'
  {
    var digit := ['0' + (n % 10) as char];
    if n < 10 then digit else Decimal(n / 10) + digit
  }

  /** A clock reading and a random suffix. */
  datatype Stamp = Stamp(nanos: nat, suffix: string)

  predicate IsStamp(s: Stamp) {
    |s.suffix| == 16 && forall i | 0 <= i < |s.suffix| :: '0' <= s.suffix[i] <= '9' || 'a' <= s.suffix[i] <= 'f'
  }

  function TransactionID(agentID: string, s: Stamp): string {
    agentID + "-" + Decimal(s.nanos) + "-" + s.suffix
  }

  lemma {:induction false} TransactionIDSafe(agentID: string, s: Stamp)
    requires SafeAgentID(agentID) && IsStamp(s)
    ensures IsName(TransactionID(agentID, s)) && Trim(TransactionID(agentID, s)) == TransactionID(agentID, s)
    ensures AllSafe(TransactionID(agentID, s))
  {
    SafeIsName(TransactionID(agentID, s));
  }

  /** What a number was written from. */
  function Value(s: string): nat {
    if s == "" then 0
    else
      var c := s[|s| - 1];
      10 * Value(s[..|s| - 1]) + if '0' <= c <= '9' then c as int - '0' as int else 0
  }

  lemma {:induction false} DecimalValue(n: nat)
    ensures Value(Decimal(n)) == n
  {
    var digit := ['0' + (n % 10) as char];
    assert digit[..0] == "" && Value(digit) == n % 10;
    if n >= 10 {
      DecimalValue(n / 10);
      var front := Decimal(n / 10);
      assert (front + digit)[..|front + digit| - 1] == front;
    }
  }

  lemma {:induction false} DashFarther(a: string, d: string, b: string, e: string)
    requires a + "-" + d == b + "-" + e
    ensures |a| < |b| ==> '-' in d
  {
    if |a| < |b| {
      assert (b + "-" + e)[|b|] == '-';
      assert (a + "-" + d)[|b|] == d[|b| - |a| - 1];
    }
  }

  /** The last dash of a text splits it in one way only. */
  lemma {:induction false} LastDash(a: string, d: string, b: string, e: string)
    requires a + "-" + d == b + "-" + e && '-' !in d && '-' !in e
    ensures a == b && d == e
  {
    var x, y := a + "-" + d, b + "-" + e;
    DashFarther(a, d, b, e);
    DashFarther(b, e, a, d);
    assert x[..|a|] == a && y[..|b|] == b && x[|a| + 1..] == d && y[|b| + 1..] == e;
  }

  lemma {:induction false} NoDash(n: nat)
    ensures '-' !in Decimal(n)
  {}

  lemma {:induction false} CutSuffix(x: string, s: string, y: string, z: string)
    requires x + "-" + s == y + "-" + z && |s| == |z|
    ensures x == y && s == z
  {
    var u, v := x + "-" + s, y + "-" + z;
    assert u[..|x|] == x && v[..|y|] == y && u[|x| + 1..] == s && v[|y| + 1..] == z;
  }

  /** An identifier tells the agent, the clock reading and the random suffix it was made from, so it comes twice only
      if all three do. */
  lemma {:induction false} TransactionIDUnique(agentID: string, s: Stamp, other: string, z: Stamp)
    requires IsStamp(s) && IsStamp(z) && TransactionID(agentID, s) == TransactionID(other, z)
    ensures agentID == other && s == z
  {
    CutSuffix(agentID + "-" + Decimal(s.nanos), s.suffix, other + "-" + Decimal(z.nanos), z.suffix);
    NoDash(s.nanos);
    NoDash(z.nanos);
    LastDash(agentID, Decimal(s.nanos), other, Decimal(z.nanos));
    DecimalValue(s.nanos);
    DecimalValue(z.nanos);
  }

  function NewTransaction(agentID: string, id: string, now: int): Transaction {
    Transaction(id, agentID, [STAGING, id], [COMMITTED, agentID, id], now)
  }

  /** The identifier is one that Begin makes up. */
  ghost predicate Generated(t: Transaction) {
    exists s :: IsStamp(s) && t.id == TransactionID(t.agentID, s)
  }

  // ---------------------------------------------------------------- records in path order

  function InsertRecord(r: FileRecord, files: seq<FileRecord>): (sorted: seq<FileRecord>)
    ensures multiset(sorted) == multiset(files) + multiset{r}
  {
    if files == [] || Less(r.path, files[0].path) then [r] + files
    else
      assert files == [files[0]] + files[1..];
      [files[0]] + InsertRecord(r, files[1..])
  }

  /** sort.Slice by path. */
  function SortRecords(files: seq<FileRecord>): (sorted: seq<FileRecord>)
    ensures multiset(sorted) == multiset(files)
  {
    if files == [] then []
    else
      assert files == [files[0]] + files[1..];
      InsertRecord(files[0], SortRecords(files[1..]))
  }

  lemma {:induction false} SameRecords(a: seq<FileRecord>, b: seq<FileRecord>)
    requires multiset(a) == multiset(b)
    ensures |a| == |b| && forall r :: r in a <==> r in b
  {
    assert |multiset(a)| == |a| && |multiset(b)| == |b|;
    forall r ensures r in a <==> r in b {
      assert r in multiset(a) <==> r in multiset(b);
    }
  }

  lemma {:induction false} InsertRecordSorted(r: FileRecord, files: seq<FileRecord>)
    requires SortedByPath(files) && forall f | f in files :: f.path != r.path
    ensures SortedByPath(InsertRecord(r, files))
  {
    var sorted := InsertRecord(r, files);
    if files == [] {
    } else if Less(r.path, files[0].path) {
      forall j | 0 < j < |sorted| ensures Less(r.path, sorted[j].path) {
        if j > 1 { LessTransitive(r.path, files[0].path, files[j - 1].path); }
      }
    } else {
      var rest := InsertRecord(r, files[1..]);
      LessTotal(r.path, files[0].path);
      InsertRecordSorted(r, files[1..]);
      SameRecords(rest, files[1..] + [r]);
      forall j | 0 < j < |sorted| ensures Less(sorted[0].path, sorted[j].path) {
        assert sorted[j] == rest[j - 1] && rest[j - 1] in rest;
      }
    }
  }

  lemma {:induction false} InsertRecordSize(r: FileRecord, files: seq<FileRecord>)
    ensures TotalSize(InsertRecord(r, files)) == TotalSize(files) + r.sizeBytes
  {
    if files == [] || Less(r.path, files[0].path) {
      TotalSizeFront(r, files);
    } else {
      InsertRecordSize(r, files[1..]);
      TotalSizeFront(files[0], InsertRecord(r, files[1..]));
      TotalSizeFront(files[0], files[1..]);
      assert files == [files[0]] + files[1..];
    }
  }

  lemma {:induction false} TotalSizeFront(r: FileRecord, files: seq<FileRecord>)
    ensures TotalSize([r] + files) == r.sizeBytes + TotalSize(files)
  {
    if files == [] {
      assert [r] + files == [r] && [r][..0] == [];
    } else {
      var n := |files| - 1;
      assert ([r] + files)[..n + 1] == [r] + files[..n];
      TotalSizeFront(r, files[..n]);
    }
  }

  ghost predicate DistinctPaths(files: seq<FileRecord>) {
    forall i, j | 0 <= i < j < |files| :: files[i].path != files[j].path
  }

  lemma {:induction false} SortRecordsSorted(files: seq<FileRecord>)
    requires DistinctPaths(files)
    ensures SortedByPath(SortRecords(files)) && TotalSize(SortRecords(files)) == TotalSize(files)
  {
    if files != [] {
      SortRecordsSorted(files[1..]);
      SameRecords(SortRecords(files[1..]), files[1..]);
      InsertRecordSorted(files[0], SortRecords(files[1..]));
      InsertRecordSize(files[0], SortRecords(files[1..]));
      TotalSizeFront(files[0], files[1..]);
      assert files == [files[0]] + files[1..];
    }
  }

  // ---------------------------------------------------------------- scanning

  ghost predicate RecordOf(c: Codec, fs: Tree, root: Path, done: set<Path>, r: FileRecord) {
    exists p | p in done :: IsArtifact(fs, root, p) && r == RecordAt(c, fs, root, p)
  }

  ghost predicate Recorded(c: Codec, fs: Tree, root: Path, files: seq<FileRecord>, p: Path) {
    IsArtifact(fs, root, p) && RecordAt(c, fs, root, p) in files
  }

  predicate Harmless(fs: Tree, root: Path, p: Path) {
    p != root + [MANIFEST] && p in fs && (fs[p].Dir? || fs[p].File?)
  }

  /** What the walk of scanArtifacts knows after visiting seen: which files are done ... */
  ghost predicate ScannedPaths(fs: Tree, root: Path, seen: set<Path>, done: set<Path>) {
    && (forall p | p in seen :: Harmless(fs, root, p))
    && (forall p | p in done :: p in seen && IsArtifact(fs, root, p))
    && (forall p | p in seen :: IsArtifact(fs, root, p) ==> p in done)
  }

  /** ... and that their records are the ones collected. */
  ghost predicate ScannedRecords(c: Codec, fs: Tree, root: Path, done: set<Path>, files: seq<FileRecord>) {
    && (forall p | p in done :: Recorded(c, fs, root, files, p))
    && (forall r | r in files :: RecordOf(c, fs, root, done, r))
    && DistinctPaths(files)
    && |done| == |files|
    && SizeOf(fs, done) == TotalSize(files)
  }

  ghost predicate ScanState(c: Codec, limits: Limits, fs: Tree, root: Path, seen: set<Path>, done: set<Path>,
                            files: seq<FileRecord>, total: nat) {
    && ScannedPaths(fs, root, seen, done)
    && ScannedRecords(c, fs, root, done, files)
    && total == TotalSize(files) && total <= limits.maxBytes && |files| <= limits.maxFiles
  }

  /** The first i entries of a listing. */
  ghost function Visited(listing: seq<Path>, i: nat): set<Path>
    requires i <= |listing|
  {
    if i == 0 then {} else Visited(listing, i - 1) + {listing[i - 1]}
  }

  lemma {:induction false} VisitedIn(listing: seq<Path>, i: nat, p: Path)
    requires i <= |listing|
    ensures p in Visited(listing, i) <==> p in listing[..i]
  {
    if i > 0 {
      VisitedIn(listing, i - 1, p);
      assert listing[..i] == listing[..i - 1] + [listing[i - 1]];
    }
  }

  lemma {:induction false} VisitedNext(fs: Tree, root: Path, listing: seq<Path>, i: nat)
    requires Lists(fs, root, listing) && i < |listing|
    ensures listing[i] in fs && Below(root, listing[i]) && listing[i] !in Visited(listing, i)
    ensures Visited(listing, i + 1) == Visited(listing, i) + {listing[i]}
  {
    VisitedIn(listing, i, listing[i]);
    assert listing[i] in listing;
  }

  lemma {:induction false} VisitedAll(fs: Tree, root: Path, listing: seq<Path>)
    requires Lists(fs, root, listing)
    ensures forall p | p in fs && Below(root, p) :: p in Visited(listing, |listing|)
  {
    forall p | p in fs && Below(root, p) ensures p in Visited(listing, |listing|) {
      VisitedIn(listing, |listing|, p);
      assert listing[..|listing|] == listing;
    }
  }

  /** Two artifacts with the same recorded path are the same. */
  lemma {:induction false} SameRecordPath(c: Codec, fs: Tree, root: Path, p: Path, q: Path)
    requires WellFormed(fs) && IsArtifact(fs, root, p) && IsArtifact(fs, root, q)
    requires RecordAt(c, fs, root, p).path == RecordAt(c, fs, root, q).path
    ensures p == q
  {
    ArtifactNames(fs, root, p);
    ArtifactNames(fs, root, q);
    JoinInjective(Relative(root, p), Relative(root, q));
  }

  lemma {:induction false} ScannedNewPath(c: Codec, fs: Tree, root: Path, done: set<Path>,
                                          files: seq<FileRecord>, p: Path)
    requires WellFormed(fs) && ScannedRecords(c, fs, root, done, files)
    requires IsArtifact(fs, root, p) && p !in done
    ensures DistinctPaths(files + [RecordAt(c, fs, root, p)])
  {
    var r := RecordAt(c, fs, root, p);
    forall i | 0 <= i < |files| ensures files[i].path != r.path {
      var f := files[i];
      assert f in files && RecordOf(c, fs, root, done, f);
      var q :| q in done && IsArtifact(fs, root, q) && f == RecordAt(c, fs, root, q);
      if f.path == r.path { SameRecordPath(c, fs, root, p, q); }
    }
  }

  lemma {:induction false} ScannedRecord(c: Codec, fs: Tree, root: Path, done: set<Path>,
                                         files: seq<FileRecord>, p: Path)
    requires WellFormed(fs) && ScannedRecords(c, fs, root, done, files)
    requires IsArtifact(fs, root, p) && p !in done
    ensures ScannedRecords(c, fs, root, done + {p}, files + [RecordAt(c, fs, root, p)])
  {
    var r := RecordAt(c, fs, root, p);
    ScannedNewPath(c, fs, root, done, files, p);
    ScannedSize(fs, done, files, p, r);
    AllRecorded(c, fs, root, done, files, p);
    AllRecordsOf(c, fs, root, done, files, p);
    SetGrows(done, p);
  }

  lemma {:induction false} AllRecorded(c: Codec, fs: Tree, root: Path, done: set<Path>, files: seq<FileRecord>, p: Path)
    requires IsArtifact(fs, root, p) && forall q | q in done :: Recorded(c, fs, root, files, q)
    ensures forall q | q in done + {p} :: Recorded(c, fs, root, files + [RecordAt(c, fs, root, p)], q)
  {
    forall q | q in done + {p} ensures Recorded(c, fs, root, files + [RecordAt(c, fs, root, p)], q) {
      assert q in done ==> Recorded(c, fs, root, files, q);
      RecordedMore(c, fs, root, files, p, q);
    }
  }

  lemma {:induction false} AllRecordsOf(c: Codec, fs: Tree, root: Path, done: set<Path>, files: seq<FileRecord>, p: Path)
    requires IsArtifact(fs, root, p) && forall f | f in files :: RecordOf(c, fs, root, done, f)
    ensures forall f | f in files + [RecordAt(c, fs, root, p)] :: RecordOf(c, fs, root, done + {p}, f)
  {
    var more := files + [RecordAt(c, fs, root, p)];
    forall f | f in more ensures RecordOf(c, fs, root, done + {p}, f) {
      assert f in files ==> RecordOf(c, fs, root, done, f);
      RecordOfMore(c, fs, root, done, p, f);
    }
  }

  lemma {:induction false} ScannedSize(fs: Tree, done: set<Path>, files: seq<FileRecord>, p: Path, r: FileRecord)
    requires p !in done && SizeOf(fs, done) == TotalSize(files) && r.sizeBytes == Weight(fs, p)
    ensures SizeOf(fs, done + {p}) == TotalSize(files + [r])
  {
    SizeOfAdd(fs, done, p);
    TotalSizeBack(files, r);
  }

  lemma {:induction false} SetGrows<T>(s: set<T>, x: T)
    requires x !in s
    ensures |s + {x}| == |s| + 1
  {}

  lemma {:induction false} RecordedMore(c: Codec, fs: Tree, root: Path, files: seq<FileRecord>, p: Path, q: Path)
    requires IsArtifact(fs, root, p) && (q == p || Recorded(c, fs, root, files, q))
    ensures Recorded(c, fs, root, files + [RecordAt(c, fs, root, p)], q)
  {}

  lemma {:induction false} RecordOfMore(c: Codec, fs: Tree, root: Path, done: set<Path>, p: Path, f: FileRecord)
    requires RecordOf(c, fs, root, done, f) || (IsArtifact(fs, root, p) && f == RecordAt(c, fs, root, p))
    ensures RecordOf(c, fs, root, done + {p}, f)
  {
    if RecordOf(c, fs, root, done, f) {
      var q :| q in done && IsArtifact(fs, root, q) && f == RecordAt(c, fs, root, q);
      assert q in done + {p};
    } else {
      assert p in done + {p};
    }
  }

  lemma {:induction false} ScanStateFile(c: Codec, limits: Limits, fs: Tree, root: Path, seen: set<Path>,
                                         done: set<Path>, files: seq<FileRecord>, total: nat, p: Path)
    requires WellFormed(fs) && ScanState(c, limits, fs, root, seen, done, files, total)
    requires Harmless(fs, root, p) && Below(root, p) && fs[p].File? && p !in seen
    requires Fits(limits, fs, p, |files|, total)
    ensures p !in done
    ensures ScanState(c, limits, fs, root, seen + {p}, done + {p}, files + [RecordAt(c, fs, root, p)],
                      total + |fs[p].data|)
  {
    ScannedRecord(c, fs, root, done, files, p);
    TotalSizeBack(files, RecordAt(c, fs, root, p));
  }

  lemma {:induction false} ScanStateEmpty(c: Codec, limits: Limits, fs: Tree, root: Path)
    requires limits.maxFiles >= 0
    ensures ScanState(c, limits, fs, root, {}, {}, [], 0)
    ensures ProtectAll(fs, {}) == fs
  {}

  lemma {:induction false} ScanStateDir(c: Codec, limits: Limits, fs: Tree, root: Path, seen: set<Path>,
                                        done: set<Path>, files: seq<FileRecord>, total: nat, p: Path)
    requires ScanState(c, limits, fs, root, seen, done, files, total)
    requires Harmless(fs, root, p) && fs[p].Dir?
    ensures ScanState(c, limits, fs, root, seen + {p}, done, files, total)
  {}

  lemma {:induction false} ScanStateNew(c: Codec, limits: Limits, fs: Tree, root: Path, seen: set<Path>,
                                        done: set<Path>, files: seq<FileRecord>, total: nat, p: Path)
    requires ScanState(c, limits, fs, root, seen, done, files, total) && p !in seen
    ensures p !in done && (forall q | q in done :: IsArtifact(fs, root, q))
    ensures |done| == |files| && SizeOf(fs, done) == total && total <= limits.maxBytes
  {}

  /** A walk that got to the end has seen exactly what the manifest must describe. */
  lemma {:induction false} ScanComplete(c: Codec, fs: Tree, root: Path, seen: set<Path>, done: set<Path>,
                                        files: seq<FileRecord>)
    requires forall p | p in fs && Below(root, p) :: p in seen
    requires ScannedPaths(fs, root, seen, done) && ScannedRecords(c, fs, root, done, files)
    ensures done == Artifacts(fs, root)
    ensures Describes(c, fs, root, SortRecords(files))
    ensures |SortRecords(files)| == |done| && TotalSize(SortRecords(files)) == SizeOf(fs, done)
    ensures root + [MANIFEST] !in fs
    ensures forall p | p in fs && Below(root, p) :: fs[p].Dir? || fs[p].File?
  {
    SortRecordsSorted(files);
    SameRecords(SortRecords(files), files);
    assert forall p | p in fs && Below(root, p) :: Harmless(fs, root, p);
    assert Below(root, root + [MANIFEST]);
    forall r | r in files ensures IsRecord(c, fs, root, r) {
      assert RecordOf(c, fs, root, done, r);
    }
    forall p | IsArtifact(fs, root, p) ensures RecordAt(c, fs, root, p) in files {
      assert Recorded(c, fs, root, files, p);
    }
  }

  lemma {:induction false} SubsetCount<T>(a: set<T>, b: set<T>)
    requires a <= b
    ensures |a| <= |b|
  {
    assert b == a + (b - a);
  }

  /** A file that overruns a limit does so in whatever order the files are counted. */
  lemma {:induction false} LimitsAreOrderless(limits: Limits, fs: Tree, root: Path, done: set<Path>, p: Path)
    requires forall q | q in done :: IsArtifact(fs, root, q)
    requires IsArtifact(fs, root, p) && p !in done
    ensures |done| + 1 > limits.maxFiles ==> |Artifacts(fs, root)| > limits.maxFiles
    ensures SizeOf(fs, done) + Weight(fs, p) > limits.maxBytes ==> SizeOf(fs, Artifacts(fs, root)) > limits.maxBytes
  {
    var more := done + {p};
    assert more <= Artifacts(fs, root);
    SubsetCount(more, Artifacts(fs, root));
    SizeOfMonotone(fs, more, Artifacts(fs, root));
    SizeOfAdd(fs, done, p);
  }

  lemma {:induction false} ProtectOne(fs: Tree, done: set<Path>, p: Path)
    requires p in fs && p !in done
    ensures ProtectAll(fs, done)[p := Protect(fs[p])] == ProtectAll(fs, done + {p})
  {}

  // ---------------------------------------------------------------- what the operations do to the tree

  /** A scan that stopped early has only changed permissions of artifacts. */
  ghost predicate PartlyProtected(before: Tree, after: Tree, root: Path) {
    exists done: set<Path> :: done <= Artifacts(before, root) && after == ProtectAll(before, done)
  }

  /** One successful commit. */
  ghost predicate Commits(c: Codec, limits: Limits, before: Tree, t: Transaction, now: int,
                          files: seq<FileRecord>, after: Tree) {
    && CanCommit(limits, before, t)
    && Describes(c, before, t.staging, files)
    && |files| == |Artifacts(before, t.staging)|
    && TotalSize(files) == SizeOf(before, Artifacts(before, t.staging))
    && after == Published(before, t, c.encode(ManifestOf(t, now, files)))
  }

  /** Transactions of this store, and no others, pass: a directory of the staging root, to be published among the
      agent's own. */
  lemma {:induction false} ValidMeaning(fs: Tree, t: Transaction)
    requires IsName(t.agentID)
    ensures ValidTransaction(fs, t) <==>
      && t.id != ""
      && |t.staging| == 2 && t.staging[0] == STAGING && t.staging in fs && fs[t.staging].Dir?
      && |t.final| == 3 && t.final[0] == COMMITTED && t.final[1] == t.agentID
  {
    CleanNames([COMMITTED], t.agentID, t.agentID);
    var namespace := [COMMITTED, t.agentID];
    assert [COMMITTED] + [t.agentID] == namespace;
    if |t.final| == 3 && t.final[0] == COMMITTED && t.final[1] == t.agentID {
      assert t.final[..2] == namespace;
    }
    if |t.staging| == 2 && t.staging[0] == STAGING { assert t.staging[..1] == [STAGING]; }
    if t.final != [] && t.final[..|t.final| - 1] == namespace {
      assert t.final[0] == namespace[0] && t.final[1] == namespace[1];
    }
    if t.staging != [] && t.staging[..|t.staging| - 1] == [STAGING] { assert t.staging[0] == [STAGING][0]; }
  }

  /** A begun transaction can be committed exactly if its directory holds nothing but directories and files, none of
      them under the reserved name, is within the limits, is not empty unless that is allowed, and its place is free. */
  lemma {:induction false} CommitSucceedsIff(limits: Limits, fs: Tree, t: Transaction)
    requires WellFormed(fs) && Begun(t) && IsDir(fs, t.staging)
    ensures CanCommit(limits, fs, t) <==>
      && t.staging + [MANIFEST] !in fs
      && (forall p | p in fs && t.staging < p :: !fs[p].Symlink? && !fs[p].Other?)
      && |Artifacts(fs, t.staging)| <= limits.maxFiles
      && SizeOf(fs, Artifacts(fs, t.staging)) <= limits.maxBytes
      && (limits.allowEmpty || exists p :: p in fs && t.staging < p && fs[p].File?)
      && ([COMMITTED, t.agentID] in fs ==> fs[[COMMITTED, t.agentID]].Dir?)
      && t.final !in fs
  {
    BegunPaths(t);
    CanMakeTwo(fs, t.agentID);
    if t.staging + [MANIFEST] !in fs {
      forall p | p in fs && t.staging < p && fs[p].File? ensures p in Artifacts(fs, t.staging) {}
      if Artifacts(fs, t.staging) != {} {
        var p :| p in Artifacts(fs, t.staging);
        assert p in fs && t.staging < p && fs[p].File?;
      }
    }
  }

  lemma {:induction false} CanMakeTwo(fs: Tree, name: string)
    requires IsDir(fs, [COMMITTED])
    ensures CanMakeAll(fs, [COMMITTED, name]) <==> ([COMMITTED, name] in fs ==> fs[[COMMITTED, name]].Dir?)
  {
    var dir := [COMMITTED, name];
    assert dir[..1] == [COMMITTED] && dir[..2] == dir;
    if [COMMITTED, name] in fs ==> fs[[COMMITTED, name]].Dir? {
      forall i | 0 < i <= |dir| ensures dir[..i] in fs ==> fs[dir[..i]].Dir? {
        assert i == 1 || i == 2;
      }
    }
  }

  /** The list that a commit makes has a record for each artifact: its path, its digest and size, and the mode it is
      published with. */
  lemma {:induction false} ListedFile(c: Codec, limits: Limits, before: Tree, t: Transaction, now: int,
                                      files: seq<FileRecord>, after: Tree, p: Path)
    requires Commits(c, limits, before, t, now, files, after) && IsArtifact(before, t.staging, p)
    ensures FileRecord(Join(p[|t.staging|..]), c.hash(before[p].data), |before[p].data|,
                       if Executable(before[p].mode) then "0555" else "0444") in files
  {
    assert RecordAt(c, before, t.staging, p) in files;
  }

  /** The manifest that a commit leaves: read-only, and when it is read back it tells whose it is, when the
      transaction was begun, when it was committed, and what was in it. */
  lemma {:induction false} CommittedManifest(c: Codec, limits: Limits, before: Tree, t: Transaction, now: int,
                                             files: seq<FileRecord>, after: Tree)
    requires Sound(c) && WellFormed(before) && Begun(t) && Commits(c, limits, before, t, now, files, after)
    ensures var p := t.final + [MANIFEST];
      && p in after && after[p].File? && after[p].mode == 4 * 64 + 4 * 8 + 4
      && c.decode(after[p].data).Some?
      && var m := c.decode(after[p].data).value;
      && m.version == 1 && m.transactionID == t.id && m.agentID == t.agentID
      && m.createdAt == t.createdAt && m.committedAt == now
      && m.fileCount == |m.files| == |Artifacts(before, t.staging)|
      && m.totalBytes == SizeOf(before, Artifacts(before, t.staging))
      && (PathsLegible(c, before, t.staging) ==> m.files == files)
    ensures forall i, j | 0 <= i < j < |files| :: Less(files[i].path, files[j].path)
  {
    var m := ManifestOf(t, now, files);
    PublishedMoved(before, t, c.encode(m), [MANIFEST]);
    SafeIsLegible(c, t.id);
    SafeIsLegible(c, t.agentID);
    if PathsLegible(c, before, t.staging) { ManifestSurvives(c, before, t.staging, m); }
  }

  /** Everything outside dir is as before, except that missing directories above final may have been made. */
  ghost predicate OnlyInside(before: Tree, after: Tree, dir: Path, final: Path) {
    && (forall p | p in before && !(dir <= p) :: p in after && after[p] == before[p])
    && (forall p | p in after && p !in before && !(dir <= p) :: p < final && after[p].Dir?)
  }

  /** Nothing below dir is lost: files keep their bytes, everything else is unchanged. */
  ghost predicate KeepsData(before: Tree, after: Tree, dir: Path) {
    forall p | p in before && dir <= p ::
      p in after && (after[p] == before[p] || (before[p].File? && after[p] == Protect(before[p])))
  }

  /** What each error of the scan says about the entry it stopped at ... */
  predicate StoppedAt(limits: Limits, fs: Tree, root: Path, p: Path, count: nat, total: nat, e: CommitError)
    requires p in fs
  {
    match e
    case Reserved => p == root + [MANIFEST]
    case LinkFound(q) => q == p && fs[p].Symlink?
    case NotRegular(q) => q == p && fs[p].Other?
    case TooManyFiles => IsFileAt(fs, root, p) && count + 1 > limits.maxFiles
    case TooManyBytes => IsFileAt(fs, root, p) && total + |fs[p].data| > limits.maxBytes
    case _ => false
  }

  predicate IsFileAt(fs: Tree, root: Path, p: Path)
    requires p in fs
  {
    fs[p].File? && p != root + [MANIFEST]
  }

  /** ... and about the tree. */
  ghost predicate Obstacle(limits: Limits, fs: Tree, root: Path, e: CommitError) {
    match e
    case Reserved => root + [MANIFEST] in fs
    case LinkFound(p) => p in fs && Below(root, p) && fs[p].Symlink?
    case NotRegular(p) => p in fs && Below(root, p) && fs[p].Other?
    case TooManyFiles => |Artifacts(fs, root)| > limits.maxFiles
    case TooManyBytes => SizeOf(fs, Artifacts(fs, root)) > limits.maxBytes
    case NoOutput => Artifacts(fs, root) == {} && !limits.allowEmpty
    case _ => false
  }

  /** Why a commit failed. */
  ghost predicate Explains(limits: Limits, fs: Tree, t: Transaction, e: CommitError) {
    if e in {Incomplete, OutsideStore, OutsideNamespace, NotADirectory} then !ValidTransaction(fs, t)
    else if e == RenameRefused then t.staging <= t.final
    else if e == AlreadyCommitted then t.final in fs || t.staging <= t.final
    else if e == ParentBlocked then t.final != [] && (!CanMakeAll(fs, Parent(t.final)) || t.staging <= t.final)
    else Obstacle(limits, fs, t.staging, e)
  }

  predicate Fits(limits: Limits, fs: Tree, p: Path, count: nat, total: nat)
    requires p in fs
  {
    fs[p].File? ==> count + 1 <= limits.maxFiles && total + |fs[p].data| <= limits.maxBytes
  }

  lemma {:induction false} ScanStopped(limits: Limits, before: Tree, root: Path, done: set<Path>, p: Path, e: CommitError)
    requires forall q | q in done :: IsArtifact(before, root, q)
    requires p in before && Below(root, p) && p !in done
    requires StoppedAt(limits, before, root, p, |done|, SizeOf(before, done), e)
    ensures PartlyProtected(before, ProtectAll(before, done), root)
    ensures Obstacle(limits, before, root, e) && !Publishable(limits, before, root)
  {
    assert done <= Artifacts(before, root);
    if IsFileAt(before, root, p) {
      LimitsAreOrderless(limits, before, root, done, p);
    }
  }

  lemma {:induction false} EntryUntouched(c: Codec, limits: Limits, fs: Tree, root: Path, done: set<Path>, p: Path,
                                          count: nat, total: nat)
    requires p in fs && p !in done
    ensures ProtectAll(fs, done)[p] == fs[p]
    ensures Harmless(ProtectAll(fs, done), root, p) <==> Harmless(fs, root, p)
    ensures Fits(limits, ProtectAll(fs, done), p, count, total) <==> Fits(limits, fs, p, count, total)
    ensures fs[p].File? && root <= p ==> RecordAt(c, ProtectAll(fs, done), root, p) == RecordAt(c, fs, root, p)
    ensures forall e ::
      StoppedAt(limits, ProtectAll(fs, done), root, p, count, total, e) <==> StoppedAt(limits, fs, root, p, count, total, e)
  {}

  lemma {:induction false} TotalSizeBack(files: seq<FileRecord>, r: FileRecord)
    ensures TotalSize(files + [r]) == TotalSize(files) + r.sizeBytes
  {
    assert (files + [r])[..|files|] == files;
  }

  lemma {:induction false} NothingChanged(fs: Tree, t: Transaction)
    ensures OnlyInside(fs, fs, t.staging, t.final) && KeepsData(fs, fs, t.staging)
  {}

  lemma {:induction false} PartlyProtectedKeeps(before: Tree, after: Tree, dir: Path, final: Path)
    requires PartlyProtected(before, after, dir)
    ensures OnlyInside(before, after, dir, final) && KeepsData(before, after, dir)
  {
    var done: set<Path> :| done <= Artifacts(before, dir) && after == ProtectAll(before, done);
    assert forall p | p in done :: IsArtifact(before, dir, p);
  }

  lemma {:induction false} PartlyProtectedShape(before: Tree, after: Tree, dir: Path)
    requires WellFormed(before) && PartlyProtected(before, after, dir)
    ensures WellFormed(after)
  {
    var done: set<Path> :| done <= Artifacts(before, dir) && after == ProtectAll(before, done);
    ProtectedWellFormed(before, done);
  }

  lemma {:induction false} CommitFailed(before: Tree, after: Tree, t: Transaction, bytes: Bytes)
    requires WellFormed(before) && ValidTransaction(before, t) && t.staging + [MANIFEST] !in before
    requires var sealed := Sealed(before, t.staging, bytes);
      && !(CanMakeAll(sealed, Parent(t.final)) && t.final !in sealed && !(t.staging <= t.final))
      && (after == sealed || (CanMakeAll(sealed, Parent(t.final)) && after == MadeAll(sealed, Parent(t.final))))
    ensures OnlyInside(before, after, t.staging, t.final) && KeepsData(before, after, t.staging)
    ensures Begun(t) ==> WellFormed(after)
    ensures !(CanMakeAll(before, Parent(t.final)) && t.final !in before && !(t.staging <= t.final))
    ensures var sealed := Sealed(before, t.staging, bytes);
      && (!CanMakeAll(sealed, Parent(t.final)) ==> !CanMakeAll(before, Parent(t.final)) || t.staging <= t.final)
      && (t.final in sealed ==> t.final in before || t.staging <= t.final)
  {
    var sealed := Sealed(before, t.staging, bytes);
    SealedKeeps(before, t.staging, t.final, bytes);
    MadeAllKeeps(before, sealed, t);
    ParentsUnaffected(before, t, bytes);
    SealedWellFormed(before, t.staging, bytes);
    if Begun(t) && CanMakeAll(sealed, Parent(t.final)) {
      BegunPaths(t);
      assert forall i | 0 <= i < |Parent(t.final)| :: Parent(t.final)[i] == t.final[i];
      MadeAllWellFormed(sealed, Parent(t.final));
    }
  }

  lemma {:induction false} CommitSucceeded(before: Tree, t: Transaction, bytes: Bytes)
    requires WellFormed(before) && ValidTransaction(before, t) && t.staging + [MANIFEST] !in before
    requires var sealed := Sealed(before, t.staging, bytes);
      CanMakeAll(sealed, Parent(t.final)) && t.final !in sealed && !(t.staging <= t.final)
    ensures CanMakeAll(before, Parent(t.final)) && t.final !in before
    ensures Begun(t) ==> WellFormed(Published(before, t, bytes))
  {
    ParentsUnaffected(before, t, bytes);
    if Begun(t) {
      PublishedWellFormed(before, t, bytes);
    }
  }

  lemma {:induction false} SealedKeeps(before: Tree, dir: Path, final: Path, bytes: Bytes)
    requires dir + [MANIFEST] !in before
    ensures OnlyInside(before, Sealed(before, dir, bytes), dir, final)
    ensures KeepsData(before, Sealed(before, dir, bytes), dir)
  {
    assert dir <= dir + [MANIFEST];
  }

  /** Sealing the staging directory does not touch the directories a commit will create. */
  lemma {:induction false} ParentsUnaffected(before: Tree, t: Transaction, bytes: Bytes)
    requires t.final != []
    ensures !(t.staging <= t.final) ==>
      && (CanMakeAll(Sealed(before, t.staging, bytes), Parent(t.final)) <==> CanMakeAll(before, Parent(t.final)))
      && (t.final in Sealed(before, t.staging, bytes) <==> t.final in before)
  {
    if t.staging <= t.final { return; }
    var dir := Parent(t.final);
    forall i | 0 < i <= |dir| ensures !(t.staging <= dir[..i]) {
      assert dir[..i] <= t.final;
    }
    assert t.staging <= t.staging + [MANIFEST];
    forall i | 0 < i <= |dir|
      ensures dir[..i] in Sealed(before, t.staging, bytes) <==> dir[..i] in before
      ensures dir[..i] in before ==> Sealed(before, t.staging, bytes)[dir[..i]] == before[dir[..i]]
    {
      SealedAt(before, t.staging, bytes, dir[..i]);
    }
  }

  lemma {:induction false} MadeAllKeeps(before: Tree, sealed: Tree, t: Transaction)
    requires t.final != []
    requires OnlyInside(before, sealed, t.staging, t.final) && KeepsData(before, sealed, t.staging)
    ensures OnlyInside(before, MadeAll(sealed, Parent(t.final)), t.staging, t.final)
    ensures KeepsData(before, MadeAll(sealed, Parent(t.final)), t.staging)
    ensures t.final in MadeAll(sealed, Parent(t.final)) <==> t.final in sealed
  {
    forall p | p in Prefixes(Parent(t.final)) ensures p < t.final {}
  }

  lemma {:induction false} RecordsHoldNext(c: Codec, fs: Tree, root: Path, files: seq<FileRecord>, r: FileRecord)
    requires RecordsHold(c, fs, root, files)
    ensures RecordsHold(c, fs, root, files + [r])
      <==> RecordHolds(c, fs, root, r) && !Names(files, ValidatePath(r.path).value)
  {
    var more := files + [r];
    assert more[|files|] == r;
    assert RecordHolds(c, fs, root, r) <== RecordsHold(c, fs, root, more) by { assert r in more; }
    if RecordHolds(c, fs, root, r) {
      if Names(files, ValidatePath(r.path).value) {
        var f :| f in files && ValidatePath(f.path) == Ok(ValidatePath(r.path).value);
        var i :| 0 <= i < |files| && files[i] == f;
        assert SamePath(more[i], more[|files|]);
      } else {
        forall i, j | 0 <= i < j < |more| ensures !SamePath(more[i], more[j]) {
          if j == |files| { assert more[i] in files; } else { assert !SamePath(files[i], files[j]); }
        }
      }
    }
  }

  lemma {:induction false} PrefixHolds(c: Codec, fs: Tree, root: Path, files: seq<FileRecord>, k: nat)
    requires k <= |files|
    ensures RecordsHold(c, fs, root, files) ==> RecordsHold(c, fs, root, files[..k])
  {}

  lemma {:induction false} IndexesNext(listed: map<Path, FileRecord>, files: seq<FileRecord>, r: FileRecord)
    requires Indexes(listed, files) && ValidatePath(r.path).Ok?
    ensures Indexes(listed[ValidatePath(r.path).value := r], files + [r])
  {
    forall p ensures Names(files + [r], p) <==> Names(files, p) || ValidatePath(r.path) == Ok(p) {
      assert forall f :: f in files + [r] <==> f in files || f == r;
    }
  }

  /** Adding up in 64 bits gives the total modulo 2^64. */
  lemma {:induction false} TalliesNext(verified: nat, files: seq<FileRecord>, i: nat)
    requires i < |files| && Tallies(verified, files[..i])
    ensures Tallies((verified + files[i].sizeBytes) % TWO_64, files[..i + 1])
  {
    assert files[..i + 1] == files[..i] + [files[i]];
    TotalSizeBack(files[..i], files[i]);
  }

  /** The records before index hold, and the one at index does not, or repeats an earlier path. */
  ghost predicate FirstBadRecord(c: Codec, fs: Tree, root: Path, files: seq<FileRecord>, index: nat) {
    && index < |files|
    && RecordsHold(c, fs, root, files[..index])
    && !(RecordHolds(c, fs, root, files[index]) && !Names(files[..index], ValidatePath(files[index].path).value))
  }

  ghost predicate Indexes(listed: map<Path, FileRecord>, files: seq<FileRecord>) {
    forall p :: p in listed <==> Names(files, p)
  }

  predicate Tallies(verified: nat, files: seq<FileRecord>) {
    verified == TotalSize(files) % TWO_64
  }

  lemma {:induction false} RecordsReadGood(c: Codec, fs: Tree, root: Path, files: seq<FileRecord>, i: nat,
                                           listed: map<Path, FileRecord>)
    requires i < |files| && RecordsHold(c, fs, root, files[..i]) && Indexes(listed, files[..i])
    requires RecordHolds(c, fs, root, files[i]) && ValidatePath(files[i].path).value !in listed
    ensures RecordsHold(c, fs, root, files[..i + 1])
    ensures Indexes(listed[ValidatePath(files[i].path).value := files[i]], files[..i + 1])
  {
    assert files[..i + 1] == files[..i] + [files[i]];
    RecordsHoldNext(c, fs, root, files[..i], files[i]);
    IndexesNext(listed, files[..i], files[i]);
  }

  lemma {:induction false} RecordsReadBad(c: Codec, fs: Tree, root: Path, files: seq<FileRecord>, i: nat,
                                          listed: map<Path, FileRecord>)
    requires i < |files| && RecordsHold(c, fs, root, files[..i]) && Indexes(listed, files[..i])
    requires !(RecordHolds(c, fs, root, files[i]) && ValidatePath(files[i].path).value !in listed)
    ensures FirstBadRecord(c, fs, root, files, i) && !RecordsHold(c, fs, root, files)
  {
    assert files[..i + 1] == files[..i] + [files[i]];
    RecordsHoldNext(c, fs, root, files[..i], files[i]);
    PrefixHolds(c, fs, root, files, i + 1);
  }

  /** The second walk has visited seen and found nothing to complain of. */
  ghost predicate Checked(fs: Tree, root: Path, files: seq<FileRecord>, seen: set<Path>) {
    forall p | p in seen :: p in fs && root <= p && AccountedFor(fs, root, files, p)
  }

  ghost function ArtifactsIn(fs: Tree, root: Path, seen: set<Path>): set<Path> {
    set p | p in seen && IsArtifact(fs, root, p)
  }

  lemma {:induction false} CheckedNext(fs: Tree, root: Path, files: seq<FileRecord>, seen: set<Path>, p: Path)
    requires Checked(fs, root, files, seen) && p !in seen
    requires p in fs && Below(root, p) && AccountedFor(fs, root, files, p)
    ensures Checked(fs, root, files, seen + {p})
    ensures |ArtifactsIn(fs, root, seen + {p})|
         == |ArtifactsIn(fs, root, seen)| + if IsArtifact(fs, root, p) then 1 else 0
  {
    if IsArtifact(fs, root, p) {
      assert ArtifactsIn(fs, root, seen + {p}) == ArtifactsIn(fs, root, seen) + {p};
    } else {
      assert ArtifactsIn(fs, root, seen + {p}) == ArtifactsIn(fs, root, seen);
    }
  }

  lemma {:induction false} AllChecked(fs: Tree, root: Path, files: seq<FileRecord>, listing: seq<Path>)
    requires Lists(fs, root, listing) && Checked(fs, root, files, Visited(listing, |listing|))
    ensures AllAccountedFor(fs, root, files)
    ensures ArtifactsIn(fs, root, Visited(listing, |listing|)) == Artifacts(fs, root)
  {
    VisitedAll(fs, root, listing);
  }

  /** What is said of a transaction is so. */
  predicate TransactionFaultHolds(fs: Tree, t: Transaction, fault: CommitError) {
    match fault
    case Incomplete => t.id == "" || t.agentID == "" || t.staging == [] || t.final == []
    case OutsideStore => t.staging != [] && Parent(t.staging) != [STAGING]
    case OutsideNamespace => t.final != [] && Parent(t.final) != PushAll([COMMITTED], Split(t.agentID))
    case NotADirectory => !IsDir(fs, t.staging)
    case _ => false
  }

  predicate HasTarget(fs: Tree, root: Path, r: FileRecord) {
    ValidatePath(r.path).Ok? && root + ValidatePath(r.path).value in fs
  }

  function TargetNode(fs: Tree, root: Path, r: FileRecord): Node
    requires HasTarget(fs, root, r)
  {
    fs[root + ValidatePath(r.path).value]
  }

  predicate IsFileTarget(fs: Tree, root: Path, r: FileRecord) {
    HasTarget(fs, root, r) && TargetNode(fs, root, r).File?
  }

  /** What the verifier says of a record is so. */
  predicate RecordFaultHolds(c: Codec, fs: Tree, root: Path, r: FileRecord, listed: map<Path, FileRecord>,
                             fault: RecordFault) {
    match fault
    case InvalidPath => ValidatePath(r.path).Err?
    case ListsItself => ValidatePath(r.path) == Ok([MANIFEST])
    case Duplicate => ValidatePath(r.path).Ok? && ValidatePath(r.path).value in listed
    case InvalidDigest => !IsDigest(r.sha256)
    case Missing => ValidatePath(r.path).Ok? && !HasTarget(fs, root, r)
    case IsLink => HasTarget(fs, root, r) && TargetNode(fs, root, r).Symlink?
    case Irregular => HasTarget(fs, root, r) && (TargetNode(fs, root, r).Dir? || TargetNode(fs, root, r).Other?)
    case SizeMismatch => IsFileTarget(fs, root, r) && |TargetNode(fs, root, r).data| != r.sizeBytes
    case InvalidMode => ParseOctal(r.mode).None?
    case ModeMismatch =>
      && IsFileTarget(fs, root, r) && ParseOctal(r.mode).Some?
      && ParseOctal(r.mode) != Some(TargetNode(fs, root, r).mode)
    case StillWritable => IsFileTarget(fs, root, r) && Writable(TargetNode(fs, root, r).mode)
    case DigestMismatch => IsFileTarget(fs, root, r) && c.hash(TargetNode(fs, root, r).data) != r.sha256
  }

  datatype OpenError = NoRoot | Blocked(directory: string)

  /** What lies below an absolute root: entries made of names, in directories. */
  ghost predicate IsTree(fs: Tree) {
    && (forall p | p in fs :: p != [] && IsNames(p))
    && (forall p, i | p in fs && 0 < i < |p| :: IsDir(fs, p[..i]))
  }

  lemma {:induction false} CanMakeOne(root: Tree, name: string)
    ensures CanMakeAll(root, [name]) <==> ([name] in root ==> root[[name]].Dir?)
  {
    assert [name][..1] == [name];
  }

  /** Open: a blank root is refused, and so is one where either directory cannot be made. usable says that the
      root is a directory or can become one. */
  method Open(path: string, usable: bool, root: Tree, l: Limits, c: Codec)
    returns (r: Result<Manager, OpenError>, after: Tree)
    requires IsTree(root)
    ensures r == Err(NoRoot) <==> Trim(path) == ""
    ensures r == Err(Blocked(STAGING)) <==> Trim(path) != "" && !(usable && CanMakeAll(root, [STAGING]))
    ensures r == Err(Blocked(COMMITTED)) <==>
      Trim(path) != "" && usable && CanMakeAll(root, [STAGING]) && !CanMakeAll(root, [COMMITTED])
    ensures r.Ok? <==> Trim(path) != "" && usable && CanMakeAll(root, [STAGING]) && CanMakeAll(root, [COMMITTED])
    ensures r == Err(NoRoot) || r == Err(Blocked(STAGING)) ==> after == root
    ensures r == Err(Blocked(COMMITTED)) ==> after == root[[STAGING] := Dir]
    ensures r.Ok? ==> fresh(r.value) && after == r.value.fs == root[[STAGING] := Dir][[COMMITTED] := Dir]
    ensures r.Ok? ==> WellFormed(after) && r.value.codec == c && r.value.limits == Defaulted(l)
  {
    if Trim(path) == "" {
      return Err(NoRoot), root;
    }
    CanMakeOne(root, STAGING);
    CanMakeOne(root, COMMITTED);
    if !usable || ([STAGING] in root && !root[[STAGING]].Dir?) {
      return Err(Blocked(STAGING)), root;
    }
    after := root[[STAGING] := Dir];
    if [COMMITTED] in after && !after[[COMMITTED]].Dir? {
      return Err(Blocked(COMMITTED)), after;
    }
    var manager := new Manager(root, l, c);
    return Ok(manager), manager.fs;
  }

  /** Limits that are not positive are replaced. */
  function Defaulted(l: Limits): (d: Limits)
    ensures d.maxFiles == if l.maxFiles > 0 then l.maxFiles else 1024
    ensures d.maxBytes == if l.maxBytes > 0 then l.maxBytes else 1073741824
    ensures d.allowEmpty == l.allowEmpty
  {
    Limits(if l.maxFiles <= 0 then 1024 else l.maxFiles,
           if l.maxBytes == 0 then 1024 * 1024 * 1024 else l.maxBytes,
           l.allowEmpty)
  }

  class Manager {
    const limits: Limits
    const codec: Codec
    var fs: Tree

    /** The manager Open returns once both directories exist or can be made. */
    constructor (root: Tree, l: Limits, c: Codec)
      requires IsTree(root) && CanMakeAll(root, [STAGING]) && CanMakeAll(root, [COMMITTED])
      ensures WellFormed(fs) && codec == c && limits == Defaulted(l)
      ensures fs == root[[STAGING] := Dir][[COMMITTED] := Dir]
    {
      limits, codec := Defaulted(l), c;
      fs := root[[STAGING] := Dir][[COMMITTED] := Dir];
      new;
      assert IsName(STAGING) && IsName(COMMITTED);
      CanMakeOne(root, STAGING);
      CanMakeOne(root, COMMITTED);
    }

    /** Begin: stamps are the clock readings and random suffixes of the successive attempts. */
    method Begin(agentID: string, stamps: seq<Stamp>, now: int) returns (r: Result<Transaction, BeginError>)
      requires WellFormed(fs)
      requires |stamps| == ATTEMPTS && forall i | 0 <= i < ATTEMPTS :: IsStamp(stamps[i])
      modifies this
      ensures r == Err(InvalidAgent) <==> !SafeAgentID(agentID)
      ensures r == Err(NoUniqueID) <==>
        && SafeAgentID(agentID)
        && forall i | 0 <= i < ATTEMPTS :: [STAGING, TransactionID(agentID, stamps[i])] in old(fs)
      ensures r.Ok? ==> exists i | 0 <= i < ATTEMPTS ::
        && r.value == NewTransaction(agentID, TransactionID(agentID, stamps[i]), now)
        && forall j | 0 <= j < i :: [STAGING, TransactionID(agentID, stamps[j])] in old(fs)
      ensures r.Ok? ==> Begun(r.value) && Generated(r.value)
      ensures r.Ok? ==> r.value.staging !in old(fs) && fs == old(fs)[r.value.staging := Dir]
      ensures r.Err? ==> fs == old(fs)
      ensures WellFormed(fs)
    {
      if !SafeAgentID(agentID) {
        return Err(InvalidAgent);
      }
      var attempt := 0;
      while attempt < ATTEMPTS
        invariant 0 <= attempt <= ATTEMPTS && fs == old(fs)
        invariant forall j | 0 <= j < attempt :: [STAGING, TransactionID(agentID, stamps[j])] in fs
      {
        var id := TransactionID(agentID, stamps[attempt]);
        if [STAGING, id] !in fs {
          TransactionIDSafe(agentID, stamps[attempt]);
          BegunWellFormed(fs, id);
          fs := fs[[STAGING, id] := Dir];
          return Ok(NewTransaction(agentID, id, now));
        }
        attempt := attempt + 1;
      }
      return Err(NoUniqueID);
    }

    /** validateTransaction. */
    method CheckTransaction(t: Transaction) returns (fault: Option<CommitError>)
      ensures fault.None? <==> ValidTransaction(fs, t)
      ensures fault.Some? ==> fault.value in {Incomplete, OutsideStore, OutsideNamespace, NotADirectory}
      ensures fault.Some? ==> TransactionFaultHolds(fs, t, fault.value)
    {
      if t.id == "" || t.agentID == "" || t.staging == [] || t.final == [] {
        return Some(Incomplete);
      }
      if Parent(t.staging) != [STAGING] {
        return Some(OutsideStore);
      }
      if Parent(t.final) != PushAll([COMMITTED], Split(t.agentID)) {
        return Some(OutsideNamespace);
      }
      if t.staging !in fs || !fs[t.staging].Dir? {
        return Some(NotADirectory);
      }
      return None;
    }

    /** The checks scanArtifacts makes on one entry of the walk. */
    method Examine(root: Path, p: Path, count: nat, total: nat) returns (fault: Option<CommitError>)
      requires p in fs && Below(root, p) && total <= limits.maxBytes
      ensures fault.None? <==> Harmless(fs, root, p) && Fits(limits, fs, p, count, total)
      ensures fault.Some? ==> StoppedAt(limits, fs, root, p, count, total, fault.value)
    {
      if p == root + [MANIFEST] {
        return Some(Reserved);
      }
      if fs[p].Symlink? {
        return Some(LinkFound(p));
      }
      if fs[p].Dir? {
        return None;
      }
      if !fs[p].File? {
        return Some(NotRegular(p));
      }
      if count + 1 > limits.maxFiles {
        return Some(TooManyFiles);
      }
      if |fs[p].data| > limits.maxBytes - total {
        return Some(TooManyBytes);
      }
      return None;
    }

    /** Hash one artifact, make it read-only, and return its record. */
    method ProtectFile(root: Path, p: Path) returns (r: FileRecord)
      requires p in fs && fs[p].File? && root <= p
      modifies this
      ensures fs == old(fs)[p := Protect(old(fs)[p])]
      ensures r == RecordAt(codec, old(fs), root, p)
    {
      var n := fs[p];
      var mode := PublishedMode(n.mode);
      fs := fs[p := File(n.data, mode)];
      return FileRecord(Join(p[|root|..]), codec.hash(n.data), |n.data|, ModeText(mode));
    }

    /** The callback of the walk: seen and done say how far it has got in the tree as it was before. */
    method Visit(root: Path, p: Path, files: seq<FileRecord>, total: nat,
                 ghost before: Tree, ghost seen: set<Path>, ghost done: set<Path>)
      returns (r: Result<(seq<FileRecord>, nat), CommitError>, ghost nowDone: set<Path>)
      requires WellFormed(before) && fs == ProtectAll(before, done)
      requires ScanState(codec, limits, before, root, seen, done, files, total)
      requires p in before && Below(root, p) && p !in seen
      modifies this
      ensures r.Ok? ==> fs == ProtectAll(before, nowDone)
      ensures r.Ok? ==> ScanState(codec, limits, before, root, seen + {p}, nowDone, r.value.0, r.value.1)
      ensures r.Err? ==> PartlyProtected(before, fs, root) && !Publishable(limits, before, root)
      ensures r.Err? ==> Obstacle(limits, before, root, r.error)
    {
      nowDone := done;
      ScanStateNew(codec, limits, before, root, seen, done, files, total, p);
      EntryUntouched(codec, limits, before, root, done, p, |files|, total);
      var fault := Examine(root, p, |files|, total);
      if fault.Some? {
        ScanStopped(limits, before, root, done, p, fault.value);
        return Err(fault.value), nowDone;
      }
      if !fs[p].File? {
        ScanStateDir(codec, limits, before, root, seen, done, files, total, p);
        return Ok((files, total)), nowDone;
      }
      ScanStateFile(codec, limits, before, root, seen, done, files, total, p);
      ProtectOne(before, done, p);
      var record := ProtectFile(root, p);
      nowDone := done + {p};
      var more: nat := total + record.sizeBytes;
      return Ok((files + [record], more)), nowDone;
    }

    /** The walk of scanArtifacts. */
    method Walk(root: Path)
      returns (ghost visited: seq<Path>, r: Result<(seq<FileRecord>, nat), CommitError>, ghost done: set<Path>)
      requires WellFormed(fs) && limits.maxFiles >= 0
      modifies this
      ensures r.Ok? ==> fs == ProtectAll(old(fs), done) && Lists(old(fs), root, visited)
      ensures r.Ok? ==>
        ScanState(codec, limits, old(fs), root, Visited(visited, |visited|), done, r.value.0, r.value.1)
      ensures r.Err? ==> PartlyProtected(old(fs), fs, root) && !Publishable(limits, old(fs), root)
      ensures r.Err? ==> Obstacle(limits, old(fs), root, r.error)
    {
      ghost var before := fs;
      done := {};
      var files: seq<FileRecord>, total: nat := [], 0;
      var listing := WalkDir(fs, root);
      var i := 0;
      ScanStateEmpty(codec, limits, before, root);
      while i < |listing|
        invariant 0 <= i <= |listing|
        invariant fs == ProtectAll(before, done)
        invariant ScanState(codec, limits, before, root, Visited(listing, i), done, files, total)
      {
        VisitedNext(before, root, listing, i);
        r, done := Visit(root, listing[i], files, total, before, Visited(listing, i), done);
        if r.Err? {
          return listing, r, done;
        }
        files, total := r.value.0, r.value.1;
        i := i + 1;
      }
      return listing, Ok((files, total)), done;
    }

    /** scanArtifacts: records every artifact and makes it read-only, or stops at the first obstacle. */
    method Scan(root: Path) returns (r: Result<(seq<FileRecord>, nat), CommitError>)
      requires WellFormed(fs) && limits.maxFiles >= 0
      modifies this
      ensures r.Ok? <==> Publishable(limits, old(fs), root)
      ensures r.Ok? ==> fs == ProtectAll(old(fs), Artifacts(old(fs), root))
      ensures r.Ok? ==> Describes(codec, old(fs), root, r.value.0)
      ensures r.Ok? ==> |r.value.0| == |Artifacts(old(fs), root)|
      ensures r.Ok? ==> r.value.1 == TotalSize(r.value.0) == SizeOf(old(fs), Artifacts(old(fs), root))
      ensures r.Err? ==> PartlyProtected(old(fs), fs, root) && Obstacle(limits, old(fs), root, r.error)
    {
      ghost var listing, done;
      listing, r, done := Walk(root);
      if r.Err? {
        return;
      }
      var (files, total) := r.value;
      VisitedAll(old(fs), root, listing);
      ScanComplete(codec, old(fs), root, Visited(listing, |listing|), done, files);
      if |files| == 0 && !limits.allowEmpty {
        return Err(NoOutput);
      }
      r := Ok((SortRecords(files), total));
    }

    /** The end of Commit: the parent directories, and the atomic rename. */
    method Publish(t: Transaction) returns (fault: Option<CommitError>)
      requires t.final != []
      modifies this
      ensures fault.None? <==> CanMakeAll(old(fs), Parent(t.final)) && t.final !in old(fs) && !(t.staging <= t.final)
      ensures fault.None? ==> fs == Renamed(MadeAll(old(fs), Parent(t.final)), t.staging, t.final)
      ensures fault.Some? ==>
        fs == old(fs) || (CanMakeAll(old(fs), Parent(t.final)) && fs == MadeAll(old(fs), Parent(t.final)))
      ensures fault == Some(ParentBlocked) <==> !CanMakeAll(old(fs), Parent(t.final))
      ensures fault == Some(AlreadyCommitted) ==> t.final in old(fs)
      ensures fault == Some(RenameRefused) ==> t.staging <= t.final
      ensures fault.Some? ==> fault.value in {ParentBlocked, AlreadyCommitted, RenameRefused}
    {
      var parent := Parent(t.final);
      if !CanMakeAll(fs, parent) {
        return Some(ParentBlocked);
      }
      MadeAllAt(fs, parent, t.final);
      fs := MadeAll(fs, parent);
      if t.final in fs {
        return Some(AlreadyCommitted);
      }
      if t.staging <= t.final {
        return Some(RenameRefused);
      }
      fs := Renamed(fs, t.staging, t.final);
      return None;
    }

    /** Commit. */
    method Commit(t: Transaction, now: int) returns (r: Result<CommitResult, CommitError>)
      requires WellFormed(fs) && limits.maxFiles >= 0
      modifies this
      ensures r.Ok? <==> CanCommit(limits, old(fs), t)
      ensures r.Ok? ==> exists files ::
        Commits(codec, limits, old(fs), t, now, files, fs) && r.value == ResultOf(t, files)
      ensures r.Err? ==> OnlyInside(old(fs), fs, t.staging, t.final) && KeepsData(old(fs), fs, t.staging)
      ensures !ValidTransaction(old(fs), t) ==> fs == old(fs)
      ensures r.Err? ==> Explains(limits, old(fs), t, r.error)
      ensures Begun(t) ==> WellFormed(fs)
    {
      var invalid := CheckTransaction(t);
      if invalid.Some? {
        NothingChanged(fs, t);
        return Err(invalid.value);
      }
      ghost var before := fs;
      var scan := Scan(t.staging);
      if scan.Err? {
        PartlyProtectedKeeps(before, fs, t.staging, t.final);
        PartlyProtectedShape(before, fs, t.staging);
        return Err(scan.error);
      }
      var (files, total) := scan.value;
      var bytes := codec.encode(
        Manifest(MANIFEST_VERSION, t.id, t.agentID, t.createdAt, now, |files|, total, files));
      fs := fs[t.staging + [MANIFEST] := File(bytes, READ_ONLY)];
      assert fs == Sealed(before, t.staging, bytes);
      var fault := Publish(t);
      if fault.Some? {
        CommitFailed(before, fs, t, bytes);
        return Err(fault.value);
      }
      CommitSucceeded(before, t, bytes);
      assert Commits(codec, limits, before, t, now, files, fs);
      return Ok(CommitResult(t.id, t.final, t.final + [MANIFEST], |files|, total));
    }

    /** Abort. */
    method Abort(t: Transaction) returns (fault: Option<CommitError>)
      modifies this
      ensures fault.None? <==> ValidTransaction(old(fs), t)
      ensures fault.None? ==> fs == RemovedAll(old(fs), t.staging)
      ensures fault.Some? ==> fs == old(fs)
      ensures old(WellFormed(fs)) ==> WellFormed(fs)
    {
      fault := CheckTransaction(t);
      if fault.None? {
        if WellFormed(fs) { RemovedWellFormed(fs, t.staging); }
        fs := RemovedAll(fs, t.staging);
      }
    }

    /** The address checks of Verify. */
    method CheckAddress(output: DependencyOutput) returns (fault: Option<VerifyError>)
      ensures fault.None? <==> Addressed(output)
      ensures fault == Some(InvalidOwner) <==> !SafeAgentID(output.agentID)
      ensures fault == Some(NoTransaction) <==> SafeAgentID(output.agentID) && Trim(output.transactionID) == ""
      ensures fault == Some(WrongDirectory) ==> output.commitPath != FinalOf(output.agentID, output.transactionID)
      ensures fault == Some(WrongManifestPath) ==> output.manifestPath != output.commitPath + [MANIFEST]
      ensures fault.Some? ==> fault.value in {InvalidOwner, NoTransaction, WrongDirectory, WrongManifestPath}
    {
      if !SafeAgentID(output.agentID) {
        return Some(InvalidOwner);
      }
      if Trim(output.transactionID) == "" {
        return Some(NoTransaction);
      }
      var expected := FinalOf(output.agentID, output.transactionID);
      if output.commitPath != expected {
        return Some(WrongDirectory);
      }
      if output.manifestPath != expected + [MANIFEST] {
        return Some(WrongManifestPath);
      }
      return None;
    }

    /** ensureNoSymlinkPath. */
    method NoSymlinkPath(dir: Path) returns (plain: bool)
      ensures plain <==> PlainPath(fs, dir)
    {
      if !([COMMITTED] <= dir) {
        return false;
      }
      assert dir[..1] == [COMMITTED];
      if [COMMITTED] !in fs || fs[[COMMITTED]].Symlink? {
        return false;
      }
      var k := 1;
      while k < |dir|
        invariant 1 <= k <= |dir|
        invariant forall i | 0 < i <= k :: dir[..i] in fs && !fs[dir[..i]].Symlink?
      {
        if dir[..k + 1] !in fs || fs[dir[..k + 1]].Symlink? {
          return false;
        }
        k := k + 1;
      }
      return true;
    }

    /** Reading and decoding the manifest of a committed directory. */
    method ReadManifest(root: Path) returns (r: Result<Manifest, VerifyError>)
      ensures r.Ok? <==> HasManifest(codec, fs, root)
      ensures r.Ok? ==> r.value == ManifestAt(codec, fs, root)
      ensures r == Err(Unreachable) <==> !PlainPath(fs, root)
      ensures r == Err(NotDirectory) <==> PlainPath(fs, root) && !IsDir(fs, root)
      ensures r == Err(NoManifest) ==> !(root + [MANIFEST] in fs && fs[root + [MANIFEST]].File?)
      ensures r == Err(ManifestTooLarge) ==>
        root + [MANIFEST] in fs && fs[root + [MANIFEST]].File? && |fs[root + [MANIFEST]].data| > 16777216
      ensures r == Err(Undecodable) ==>
        && root + [MANIFEST] in fs && fs[root + [MANIFEST]].File?
        && codec.decode(fs[root + [MANIFEST]].data).None?
      ensures r.Err? ==> r.error in {Unreachable, NotDirectory, NoManifest, ManifestTooLarge, Undecodable}
    {
      var plain := NoSymlinkPath(root);
      if !plain {
        return Err(Unreachable);
      }
      if root !in fs || !fs[root].Dir? {
        return Err(NotDirectory);
      }
      var path := root + [MANIFEST];
      if path !in fs || !fs[path].File? {
        return Err(NoManifest);
      }
      if |fs[path].data| > MANIFEST_CAP {
        return Err(ManifestTooLarge);
      }
      var decoded := codec.decode(fs[path].data);
      if decoded.None? {
        return Err(Undecodable);
      }
      return Ok(decoded.value);
    }

    /** The checks of Verify on one record, against the paths listed so far. */
    method CheckRecord(root: Path, r: FileRecord, listed: map<Path, FileRecord>) returns (fault: Option<RecordFault>)
      ensures fault.None? <==> RecordHolds(codec, fs, root, r) && ValidatePath(r.path).value !in listed
      ensures fault == Some(InvalidPath) <==> ValidatePath(r.path).Err?
      ensures fault == Some(ListsItself) <==> ValidatePath(r.path) == Ok([MANIFEST])
      ensures fault.Some? ==> RecordFaultHolds(codec, fs, root, r, listed, fault.value)
    {
      var relative := ValidatePath(r.path);
      if relative.Err? {
        return Some(InvalidPath);
      }
      if relative.value == [MANIFEST] {
        return Some(ListsItself);
      }
      if relative.value in listed {
        return Some(Duplicate);
      }
      if !IsDigest(r.sha256) {
        return Some(InvalidDigest);
      }
      var target := root + relative.value;
      if target !in fs {
        return Some(Missing);
      }
      if fs[target].Symlink? {
        return Some(IsLink);
      }
      if !fs[target].File? {
        return Some(Irregular);
      }
      if |fs[target].data| != r.sizeBytes {
        return Some(SizeMismatch);
      }
      var mode := ParseOctal(r.mode);
      if mode.None? {
        return Some(InvalidMode);
      }
      if fs[target].mode != mode.value {
        return Some(ModeMismatch);
      }
      if Writable(fs[target].mode) {
        return Some(StillWritable);
      }
      if codec.hash(fs[target].data) != r.sha256 {
        return Some(DigestMismatch);
      }
      return None;
    }

    /** The first loop of Verify: every record in turn, adding up in 64 bits. */
    method CheckRecords(root: Path, files: seq<FileRecord>)
      returns (r: Result<nat, VerifyError>, listed: map<Path, FileRecord>)
      ensures r.Ok? <==> RecordsHold(codec, fs, root, files)
      ensures r.Ok? ==> Tallies(r.value, files) && Indexes(listed, files)
      ensures r.Err? ==> r.error.BadRecord? && r.error.index < |files|
      ensures r.Err? ==> FirstBadRecord(codec, fs, root, files, r.error.index)
      ensures r.Err? ==>
        && Indexes(listed, files[..r.error.index])
        && RecordFaultHolds(codec, fs, root, files[r.error.index], listed, r.error.fault)
    {
      listed := map[];
      var verified: nat := 0;
      var i := 0;
      while i < |files|
        invariant 0 <= i <= |files|
        invariant RecordsHold(codec, fs, root, files[..i])
        invariant Indexes(listed, files[..i]) && Tallies(verified, files[..i])
      {
        var fault := CheckRecord(root, files[i], listed);
        if fault.Some? {
          RecordsReadBad(codec, fs, root, files, i, listed);
          return Err(BadRecord(i, fault.value)), listed;
        }
        RecordsReadGood(codec, fs, root, files, i, listed);
        TalliesNext(verified, files, i);
        listed := listed[ValidatePath(files[i].path).value := files[i]];
        verified := (verified + files[i].sizeBytes) % TWO_64;
        i := i + 1;
      }
      assert files[..|files|] == files;
      return Ok(verified), listed;
    }

    /** The callback of the second walk: whether an entry is an artifact to be counted. */
    method CheckEntry(root: Path, p: Path, listed: map<Path, FileRecord>) returns (r: Result<bool, VerifyError>)
      requires p in fs && Below(root, p)
      ensures r.Err? ==> r == Err(Stray(p))
      ensures r.Ok? <==>
        fs[p].Dir? || (fs[p].File? && (p == root + [MANIFEST] || p[|root|..] in listed))
      ensures r.Ok? ==> (r.value <==> IsArtifact(fs, root, p))
    {
      if fs[p].Symlink? {
        return Err(Stray(p));
      }
      if fs[p].Dir? {
        return Ok(false);
      }
      if !fs[p].File? {
        return Err(Stray(p));
      }
      if p == root + [MANIFEST] {
        return Ok(false);
      }
      if p[|root|..] !in listed {
        return Err(Stray(p));
      }
      return Ok(true);
    }

    /** The second loop of Verify: the walk of the committed directory, counting the artifacts. */
    method CheckTree(root: Path, files: seq<FileRecord>, listed: map<Path, FileRecord>)
      returns (r: Result<nat, VerifyError>)
      requires Indexes(listed, files)
      ensures r.Ok? <==> AllAccountedFor(fs, root, files)
      ensures r.Ok? ==> r.value == |Artifacts(fs, root)|
      ensures r.Err? ==> r.error.Stray? && r.error.path in fs && Below(root, r.error.path)
      ensures r.Err? ==> !AccountedFor(fs, root, files, r.error.path)
    {
      var listing := WalkDir(fs, root);
      var actual: nat := 0;
      var i := 0;
      while i < |listing|
        invariant 0 <= i <= |listing|
        invariant Checked(fs, root, files, Visited(listing, i))
        invariant actual == |ArtifactsIn(fs, root, Visited(listing, i))|
      {
        VisitedNext(fs, root, listing, i);
        var entry := CheckEntry(root, listing[i], listed);
        if entry.Err? {
          return Err(entry.error);
        }
        CheckedNext(fs, root, files, Visited(listing, i), listing[i]);
        if entry.value {
          actual := actual + 1;
        }
        i := i + 1;
      }
      AllChecked(fs, root, files, listing);
      return Ok(actual);
    }

    /** The checks of Verify on the manifest's own fields. */
    method CheckHeader(m: Manifest, output: DependencyOutput) returns (fits: bool)
      ensures fits <==>
        && m.version == 1
        && m.agentID == output.agentID && m.transactionID == output.transactionID
        && m.createdAt != 0 && m.committedAt != 0
        && m.fileCount == |m.files|
        && output.fileCount == m.fileCount && output.totalBytes == m.totalBytes
    {
      if m.version != MANIFEST_VERSION {
        return false;
      }
      if m.agentID != output.agentID {
        return false;
      }
      if m.transactionID != output.transactionID {
        return false;
      }
      if m.createdAt == 0 || m.committedAt == 0 {
        return false;
      }
      if m.fileCount != |m.files| {
        return false;
      }
      if output.fileCount != m.fileCount {
        return false;
      }
      if output.totalBytes != m.totalBytes {
        return false;
      }
      return true;
    }

    /** Verify. */
    method Verify(output: DependencyOutput) returns (r: Result<Verification, VerifyError>)
      ensures r.Ok? <==> Accepts(codec, fs, output)
      ensures r.Ok? ==>
        r.value == Verification(codec.hash(fs[output.manifestPath].data), output.fileCount, output.totalBytes)
      ensures r.Ok? ==>
        && HasManifest(codec, fs, output.commitPath)
        && var m := ManifestAt(codec, fs, output.commitPath);
        && m.version == 1 && m.agentID == output.agentID && m.transactionID == output.transactionID
        && m.fileCount == output.fileCount == |m.files| && m.totalBytes == output.totalBytes
        && m.createdAt != 0 && m.committedAt != 0
      ensures r != Err(CountMismatch)
      ensures r.Err? && r.error in {InvalidOwner, NoTransaction, WrongDirectory, WrongManifestPath} ==>
        !Addressed(output)
      ensures r.Err? && r.error in {Unreachable, NotDirectory, NoManifest, ManifestTooLarge, Undecodable} ==>
        !HasManifest(codec, fs, output.commitPath)
      ensures r == Err(HeaderMismatch) ==>
        && HasManifest(codec, fs, output.commitPath)
        && !HeaderMatches(ManifestAt(codec, fs, output.commitPath), output)
      ensures r == Err(TotalMismatch) ==>
        && HasManifest(codec, fs, output.commitPath)
        && var m := ManifestAt(codec, fs, output.commitPath);
        RecordsHold(codec, fs, output.commitPath, m.files) && TotalSize(m.files) % TWO_64 != m.totalBytes
      ensures r.Err? && r.error.BadRecord? ==>
        && HasManifest(codec, fs, output.commitPath)
        && FirstBadRecord(codec, fs, output.commitPath, ManifestAt(codec, fs, output.commitPath).files, r.error.index)
      ensures r.Err? && r.error.Stray? ==>
        && HasManifest(codec, fs, output.commitPath)
        && r.error.path in fs && Below(output.commitPath, r.error.path)
        && !AccountedFor(fs, output.commitPath, ManifestAt(codec, fs, output.commitPath).files, r.error.path)
    {
      var address := CheckAddress(output);
      if address.Some? {
        return Err(address.value);
      }
      var root := output.commitPath;
      var read := ReadManifest(root);
      if read.Err? {
        return Err(read.error);
      }
      var manifest := read.value;
      var fits := CheckHeader(manifest, output);
      if !fits {
        return Err(HeaderMismatch);
      }
      var verified, listed := CheckRecords(root, manifest.files);
      if verified.Err? {
        return Err(verified.error);
      }
      if verified.value != manifest.totalBytes {
        return Err(TotalMismatch);
      }
      var actual := CheckTree(root, manifest.files, listed);
      if actual.Err? {
        return Err(actual.error);
      }
      ArtifactsAreTargets(codec, fs, root, manifest.files);
      if actual.value != manifest.fileCount {
        return Err(CountMismatch);
      }
      var digest := codec.hash(fs[root + [MANIFEST]].data);
      return Ok(Verification(digest, manifest.fileCount, manifest.totalBytes));
    }
  }
}
