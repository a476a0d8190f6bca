/** Small stores on which the outputs do not behave as one would hope. */
module OutputExamples {
  import opened Sums
  import opened Text
  import opened Paths
  import opened OutputTree
  import opened Outputs
  import opened OutputRoundTrip
  import opened OutputManager
  import opened OutputRuns

  const STAMP := Stamp(1, "0123456789abcdef")
  const ONE: Transaction := NewTransaction("a", TransactionID("a", STAMP), 1)

  lemma {:induction false} OneBegun()
    ensures Begun(ONE) && Generated(ONE)
  {
    assert SafeAgentID("a");
    assert |STAMP.suffix| == 16;
    TransactionIDSafe("a", STAMP);
  }

  /** Names that the directory of an artifact can hold, in order. */
  ghost predicate FileNames(names: seq<string>) {
    StrictlySorted(names) && forall i | 0 <= i < |names| :: IsName(names[i]) && names[i] != MANIFEST
  }

  lemma {:induction false} OneName(name: string)
    requires IsName(name) && name != MANIFEST
    ensures FileNames([name])
  {}

  ghost function PathsOf(names: seq<string>): set<Path> {
    set n | n in names :: ONE.staging + [n]
  }

  /** A store in which ONE has been begun and has written an empty file under each name. */
  ghost function Staged(names: seq<string>): Tree {
    EMPTY.fs[ONE.staging := Dir] + map p | p in PathsOf(names) :: File([], 420)
  }

  function RecordNamed(c: Codec, name: string): FileRecord {
    FileRecord(name, c.hash([]), 0, "0444")
  }

  function Records(c: Codec, names: seq<string>): seq<FileRecord> {
    seq(|names|, i requires 0 <= i < |names| => RecordNamed(c, names[i]))
  }

  lemma {:induction false} StagedAt(names: seq<string>, p: Path)
    ensures p in Staged(names) <==> p == [STAGING] || p == [COMMITTED] || p == ONE.staging || p in PathsOf(names)
    ensures p in PathsOf(names) ==> Staged(names)[p] == File([], 420) && |p| == 3 && p[..2] == ONE.staging
    ensures p in Staged(names) && p !in PathsOf(names) ==> Staged(names)[p] == Dir && |p| <= 2
  {
    forall n | n in names ensures (ONE.staging + [n])[..2] == ONE.staging && |ONE.staging + [n]| == 3 {}
  }

  lemma {:induction false} StagedWellFormed(names: seq<string>)
    requires FileNames(names)
    ensures WellFormed(Staged(names))
  {
    var fs := Staged(names);
    OneBegun();
    assert IsName(STAGING) && IsName(COMMITTED);
    forall p | p in fs ensures p != [] && IsNames(p) {
      StagedAt(names, p);
      if p in PathsOf(names) {
        var n :| n in names && p == ONE.staging + [n];
        assert IsName(n);
      }
    }
    forall p, i | p in fs && 0 < i < |p| ensures IsDir(fs, p[..i]) {
      StagedAt(names, p);
      StagedAt(names, ONE.staging);
      StagedAt(names, [STAGING]);
      if i == 1 { assert p[..1] == [STAGING]; }
    }
    StagedAt(names, [STAGING]);
    StagedAt(names, [COMMITTED]);
  }

  lemma {:induction false} StagedArtifact(names: seq<string>, p: Path)
    requires FileNames(names)
    ensures IsArtifact(Staged(names), ONE.staging, p) <==> p in PathsOf(names)
  {
    StagedAt(names, p);
    if p in PathsOf(names) {
      var n :| n in names && p == ONE.staging + [n];
      assert p[2] == n && (ONE.staging + [MANIFEST])[2] == MANIFEST;
    }
  }

  lemma {:induction false} PathsCount(names: seq<string>)
    requires StrictlySorted(names)
    ensures |PathsOf(names)| == |names|
  {
    if names == [] {
      assert PathsOf(names) == {};
    } else {
      var n := |names| - 1;
      PathsCount(names[..n]);
      assert names == names[..n] + [names[n]];
      LessIrreflexive(names[n]);
      OneMorePath(names[..n], names[n]);
    }
  }

  lemma {:induction false} OneMorePath(names: seq<string>, last: string)
    requires last !in names
    ensures |PathsOf(names + [last])| == |PathsOf(names)| + 1
  {
    forall n | n in names ensures ONE.staging + [n] != ONE.staging + [last] {
      assert (ONE.staging + [n])[2] == n && (ONE.staging + [last])[2] == last;
    }
    assert PathsOf(names + [last]) == PathsOf(names) + {ONE.staging + [last]};
  }

  lemma {:induction false} NoBytes(fs: Tree, files: set<Path>)
    requires forall p | p in files :: Weight(fs, p) == 0
    ensures SizeOf(fs, files) == 0
  {
    if files != {} {
      var p :| p in files;
      NoBytes(fs, files - {p});
      SizeOfRemove(fs, files, p);
    }
  }

  lemma {:induction false} StagedArtifacts(names: seq<string>)
    requires FileNames(names)
    ensures Artifacts(Staged(names), ONE.staging) == PathsOf(names) && |PathsOf(names)| == |names|
    ensures SizeOf(Staged(names), Artifacts(Staged(names), ONE.staging)) == 0
  {
    var fs := Staged(names);
    forall p ensures p in Artifacts(fs, ONE.staging) <==> p in PathsOf(names) {
      StagedArtifact(names, p);
    }
    forall p | p in Artifacts(fs, ONE.staging) ensures Weight(fs, p) == 0 {
      StagedAt(names, p);
    }
    PathsCount(names);
    NoBytes(fs, Artifacts(fs, ONE.staging));
  }

  lemma {:induction false} StagedRecord(c: Codec, names: seq<string>, n: string)
    requires FileNames(names) && n in names
    ensures var p := ONE.staging + [n];
      && IsArtifact(Staged(names), ONE.staging, p) && Relative(ONE.staging, p) == [n]
      && RecordAt(c, Staged(names), ONE.staging, p) == RecordNamed(c, n)
  {
    var p := ONE.staging + [n];
    StagedArtifact(names, p);
    StagedAt(names, p);
    assert Relative(ONE.staging, p) == [n] && Join([n]) == n && !Executable(420);
  }

  lemma {:induction false} StagedDescribed(c: Codec, names: seq<string>)
    requires FileNames(names)
    ensures Describes(c, Staged(names), ONE.staging, Records(c, names))
  {
    var fs, root, files := Staged(names), ONE.staging, Records(c, names);
    forall p | IsArtifact(fs, root, p) ensures RecordAt(c, fs, root, p) in files {
      StagedArtifact(names, p);
      var n :| n in names && p == root + [n];
      StagedRecord(c, names, n);
      var i :| 0 <= i < |names| && names[i] == n;
      assert files[i] == RecordNamed(c, n);
    }
    forall r | r in files ensures IsRecord(c, fs, root, r) {
      var i :| 0 <= i < |files| && files[i] == r;
      StagedRecord(c, names, names[i]);
    }
  }

  lemma {:induction false} RecordsTotal(c: Codec, names: seq<string>)
    ensures TotalSize(Records(c, names)) == 0
  {
    if names != [] {
      var n := |names| - 1;
      assert Records(c, names)[..n] == Records(c, names[..n]);
      RecordsTotal(c, names[..n]);
    }
  }

  lemma {:induction false} ManifestAbsent(names: seq<string>)
    requires FileNames(names)
    ensures ONE.staging + [MANIFEST] !in Staged(names)
  {
    var p := ONE.staging + [MANIFEST];
    StagedAt(names, p);
    forall n | n in names ensures ONE.staging + [n] != p {
      assert (ONE.staging + [n])[2] == n && p[2] == MANIFEST;
    }
    assert |p| == 3;
  }

  lemma {:induction false} StagedPublishable(limits: Limits, names: seq<string>)
    requires FileNames(names) && 1 <= |names| <= limits.maxFiles
    ensures Publishable(limits, Staged(names), ONE.staging)
  {
    var fs := Staged(names);
    StagedArtifacts(names);
    assert ONE.staging + [names[0]] in PathsOf(names);
    ManifestAbsent(names);
    forall q | q in fs ensures fs[q].Dir? || fs[q].File? {
      StagedAt(names, q);
    }
  }

  lemma {:induction false} StagedCanCommit(limits: Limits, names: seq<string>)
    requires FileNames(names) && 1 <= |names| <= limits.maxFiles
    ensures CanCommit(limits, Staged(names), ONE)
  {
    OneBegun();
    BegunPaths(ONE);
    StagedPublishable(limits, names);
    StagedAt(names, ONE.staging);
    NothingCommitted(names, ONE.final);
    forall i | 0 < i <= |Parent(ONE.final)|
      ensures Parent(ONE.final)[..i] in Staged(names) ==> Staged(names)[Parent(ONE.final)[..i]].Dir?
    {
      StagedAt(names, Parent(ONE.final)[..i]);
      NothingCommitted(names, Parent(ONE.final)[..i]);
    }
  }

  lemma {:induction false} NothingCommitted(names: seq<string>, p: Path)
    requires p != [] && p[0] == COMMITTED
    ensures p in Staged(names) ==> p == [COMMITTED]
  {
    StagedAt(names, p);
    assert STAGING[0] != COMMITTED[0] && ONE.staging[0] == STAGING;
    assert |p| >= 2 ==> p[..2][0] == p[0];
  }

  /** The commit of these files succeeds. */
  lemma {:induction false} StagedCommits(c: Codec, limits: Limits, names: seq<string>)
    requires FileNames(names) && 1 <= |names| <= limits.maxFiles
    ensures var files := Records(c, names);
      Commits(c, limits, Staged(names), ONE, 1, files, Published(Staged(names), ONE, c.encode(ManifestOf(ONE, 1, files))))
  {
    StagedCanCommit(limits, names);
    StagedDescribed(c, names);
    StagedArtifacts(names);
    RecordsTotal(c, names);
  }

  /** Whether what was published then verifies. */
  lemma {:induction false} StagedVerifies(c: Codec, limits: Limits, names: seq<string>)
    requires Sound(c) && FileNames(names) && 1 <= |names| <= limits.maxFiles && limits.maxBytes < TWO_64
    ensures var files := Records(c, names);
      var bytes := c.encode(ManifestOf(ONE, 1, files));
      Accepts(c, Published(Staged(names), ONE, bytes), OutputOf(ONE.agentID, ResultOf(ONE, files)))
      ==> |bytes| <= MANIFEST_CAP && forall n | n in names :: Trim(n) == n && Legible(c, n)
  {
    var files := Records(c, names);
    OneBegun();
    StagedWellFormed(names);
    StagedCommits(c, limits, names);
    RecordsTotal(c, names);
    CommitVerifies(c, limits, Staged(names), ONE, 1, files);
    if PathsTrimmed(Staged(names), ONE.staging) && PathsLegible(c, Staged(names), ONE.staging) {
      forall n | n in names ensures Trim(n) == n && Legible(c, n) {
        StagedRecord(c, names, n);
        assert Join([n]) == n;
      }
    }
  }

  /** ONE is committed with a file under each name, and what was committed is then refused. */
  ghost predicate CommittedAndRefused(c: Codec, limits: Limits, names: seq<string>) {
    var fs, files := Staged(names), Records(c, names);
    var after := Published(fs, ONE, c.encode(ManifestOf(ONE, 1, files)));
    && Commits(c, limits, fs, ONE, 1, files, after)
    && !Accepts(c, after, OutputOf(ONE.agentID, ResultOf(ONE, files)))
  }

  lemma {:induction false} SpaceIsTrimmed()
    ensures Trim(" a") != " a"
  {
    assert " a"[1..] == "a" && TrimLeft("a") == "a";
    assert |TrimLeft(" a")| == 1;
  }

  /** A file called " a" can be committed, and what was committed is then refused. */
  lemma {:induction false} SpaceIsNotVerified(c: Codec, limits: Limits)
    requires Sound(c) && limits.maxFiles >= 1 && limits.maxBytes < TWO_64
    ensures CommittedAndRefused(c, limits, [" a"])
  {
    assert |" a"| == 2 && |MANIFEST| > 2;
    OneName(" a");
    StagedCommits(c, limits, [" a"]);
    StagedVerifies(c, limits, [" a"]);
    SpaceIsTrimmed();
    assert " a" in [" a"];
  }

  /** So can a file whose name is one byte that is not UTF-8. */
  lemma {:induction false} OddByteIsNotVerified(c: Codec, limits: Limits, odd: char)
    requires Sound(c) && !c.legible(odd) && limits.maxFiles >= 1 && limits.maxBytes < TWO_64
    ensures CommittedAndRefused(c, limits, [[odd]])
  {
    assert c.legible('/') && c.legible('.');
    assert |[odd]| == 1 && |".."| == 2 && |MANIFEST| > 1 && [odd][0] == odd;
    OneName([odd]);
    StagedCommits(c, limits, [[odd]]);
    StagedVerifies(c, limits, [[odd]]);
    assert [odd] in [[odd]] && !Legible(c, [odd]);
  }

  // ---------------------------------------------------------------- a manifest above the cap

  function PathsLength(files: seq<FileRecord>): nat {
    if files == [] then 0 else PathsLength(files[..|files| - 1]) + |files[|files| - 1].path|
  }

  /** The coding writes every path out, as JSON does. */
  ghost predicate WritesPaths(c: Codec) {
    forall m: Manifest :: |c.encode(m)| >= PathsLength(m.files)
  }

  function Power(w: nat): nat {
    if w == 0 then 1 else 2 * Power(w - 1)
  }

  /** i in w binary digits. */
  function Binary(i: nat, w: nat): (s: string)
    ensures |s| == w && forall k | 0 <= k < w :: s[k] == '0' || s[k] == '1'
  {
    if w == 0 then ""
    else if i < Power(w - 1) then "0" + Binary(i, w - 1)
    else "1" + Binary(i - Power(w - 1), w - 1)
  }

  lemma {:induction false} BinaryOrder(i: nat, j: nat, w: nat)
    requires i < j < Power(w)
    ensures Less(Binary(i, w), Binary(j, w))
  {
    var a, b, half := Binary(i, w), Binary(j, w), Power(w - 1);
    if i < half <= j {
      assert a[0] == '0' && b[0] == '1';
    } else if j < half {
      BinaryOrder(i, j, w - 1);
      assert a[1..] == Binary(i, w - 1) && b[1..] == Binary(j, w - 1);
    } else {
      BinaryOrder(i - half, j - half, w - 1);
      assert a[1..] == Binary(i - half, w - 1) && b[1..] == Binary(j - half, w - 1);
    }
  }

  lemma {:induction false} PowerGrows(v: nat, w: nat)
    requires v <= w
    ensures Power(v) <= Power(w)
    decreases w - v
  {
    if v < w { PowerGrows(v, w - 1); }
  }

  lemma {:induction false} SeventeenDigits()
    ensures Power(17) == 131072
  {
    assert Power(3) == 8;
    assert Power(6) == 64;
    assert Power(9) == 512;
    assert Power(12) == 4096;
    assert Power(15) == 32768;
  }

  /** The longest file name that common file systems allow. */
  const LONGEST := 255
  const MANY := MANIFEST_CAP / LONGEST + 1

  function LongNames(n: nat): (names: seq<string>)
    ensures |names| == n
  {
    seq(n, i requires 0 <= i < n => Binary(i, LONGEST))
  }

  lemma {:induction false} LongNamesFit(n: nat)
    requires n <= MANY
    ensures FileNames(LongNames(n))
  {
    PowerGrows(17, LONGEST);
    SeventeenDigits();
    forall i, j | 0 <= i < j < n ensures Less(LongNames(n)[i], LongNames(n)[j]) {
      BinaryOrder(i, j, LONGEST);
    }
    forall i | 0 <= i < n ensures IsName(LongNames(n)[i]) && LongNames(n)[i] != MANIFEST {
      BinaryIsName(i, LONGEST);
    }
  }

  lemma {:induction false} BinaryIsName(i: nat, w: nat)
    requires w > 0
    ensures IsName(Binary(i, w)) && Binary(i, w) != MANIFEST
  {
    assert Binary(i, w)[0] != '.' && MANIFEST[0] == '.';
  }

  lemma {:induction false} LongPaths(c: Codec, n: nat)
    ensures PathsLength(Records(c, LongNames(n))) == LONGEST * n
  {
    if n > 0 {
      LongPaths(c, n - 1);
      assert Records(c, LongNames(n))[..n - 1] == Records(c, LongNames(n - 1));
    }
  }

  /** Nothing stops a commit whose manifest the verifier will find too large: enough files with long names do it. */
  lemma {:induction false} LargeManifestIsNotVerified(c: Codec, limits: Limits)
    requires Sound(c) && WritesPaths(c) && limits.maxFiles >= MANY && limits.maxBytes < TWO_64
    ensures CommittedAndRefused(c, limits, LongNames(MANY))
  {
    var files := Records(c, LongNames(MANY));
    LongNamesFit(MANY);
    LongPaths(c, MANY);
    StagedCommits(c, limits, LongNames(MANY));
    StagedVerifies(c, limits, LongNames(MANY));
    assert |c.encode(ManifestOf(ONE, 1, files))| > MANIFEST_CAP;
  }

  // ---------------------------------------------------------------- a run that reuses an identifier

  const NAMES := ["f"]
  const BEGUN: Store := Store(EMPTY.fs[ONE.staging := Dir], {ONE}, {}, {})
  ghost const WRITTEN: Store := Store(Staged(NAMES), {ONE}, {}, {})

  lemma {:induction false} NamesFit()
    ensures FileNames(NAMES)
  {
    assert |"f"| == 1 && |MANIFEST| > 1;
    OneName("f");
  }

  lemma {:induction false} FirstBegin(g: Setting)
    ensures Next(g, EMPTY, Begin(ONE), BEGUN)
  {
    OneBegun();
  }

  lemma {:induction false} FirstWrite(g: Setting)
    ensures Next(g, BEGUN, Write(ONE), WRITTEN)
  {
    NamesFit();
    StagedWellFormed(NAMES);
    StagedAt(NAMES, ONE.staging);
    var before, after, dir := BEGUN.fs, WRITTEN.fs, ONE.staging;
    forall p | !(dir < p) ensures (p in before <==> p in after) && (p in before ==> before[p] == after[p]) {
      StagedAt(NAMES, p);
    }
  }

  lemma {:induction false} CommitNext(g: Setting, s: Store, t: Transaction, now: int, files: seq<FileRecord>, after: Tree)
    requires t in s.begun && Commits(g.codec, g.limits, s.fs, t, now, files, after)
    ensures Next(g, s, Commit(t, now, files), s.(fs := after, committed := s.committed + {t}))
  {}

  lemma {:induction false} FirstCommit(g: Setting) returns (committed: Store)
    requires g.limits.maxFiles >= 1
    ensures Next(g, WRITTEN, Commit(ONE, 1, Records(g.codec, NAMES)), committed) && ONE in committed.committed
  {
    NamesFit();
    StagedCommits(g.codec, g.limits, NAMES);
    var files := Records(g.codec, NAMES);
    var after := Published(Staged(NAMES), ONE, g.codec.encode(ManifestOf(ONE, 1, files)));
    committed := WRITTEN.(fs := after, committed := WRITTEN.committed + {ONE});
    CommitNext(g, WRITTEN, ONE, 1, files, after);
  }

  lemma {:induction false} FirstStep(g: Setting, a: OutputRuns.Step, s: Store)
    requires Next(g, EMPTY, a, s)
    ensures Run(g, [EMPTY, s], [a])
  {}

  lemma {:induction false} SecondStep(g: Setting, a: OutputRuns.Step, b: OutputRuns.Step, s: Store, s': Store)
    requires Run(g, [EMPTY, s], [a]) && Next(g, s, b, s')
    ensures Run(g, [EMPTY, s, s'], [a, b])
  {
    RunMore(g, [EMPTY, s], [a], b, s');
    assert [EMPTY, s] + [s'] == [EMPTY, s, s'] && [a] + [b] == [a, b];
  }

  lemma {:induction false} ThirdStep(g: Setting, a: OutputRuns.Step, b: OutputRuns.Step, c: OutputRuns.Step,
                                     s: Store, s': Store, s'': Store)
    requires Run(g, [EMPTY, s, s'], [a, b]) && Next(g, s', c, s'')
    ensures Run(g, [EMPTY, s, s', s''], [a, b, c])
  {
    RunMore(g, [EMPTY, s, s'], [a, b], c, s'');
    assert [EMPTY, s, s'] + [s''] == [EMPTY, s, s', s''] && [a, b] + [c] == [a, b, c];
  }

  lemma {:induction false} OneBeginIsFresh(states: seq<Store>, steps: seq<OutputRuns.Step>)
    requires |states| == |steps| + 1 && states[0] == EMPTY && forall i | 0 < i < |steps| :: !steps[i].Begin?
    ensures FreshRun(states, steps)
  {}

  lemma {:induction false} OrdinaryRun(g: Setting) returns (states: seq<Store>, steps: seq<OutputRuns.Step>)
    requires g.limits.maxFiles >= 1
    ensures Run(g, states, steps) && ONE in states[|steps|].committed
    ensures states[0] == EMPTY && forall i | 0 < i < |steps| :: !steps[i].Begin?
  {
    FirstBegin(g);
    FirstStep(g, Begin(ONE), BEGUN);
    FirstWrite(g);
    SecondStep(g, Begin(ONE), Write(ONE), BEGUN, WRITTEN);
    var committed := FirstCommit(g);
    var commit := Commit(ONE, 1, Records(g.codec, NAMES));
    ThirdStep(g, Begin(ONE), Write(ONE), commit, BEGUN, WRITTEN, committed);
    states, steps := [EMPTY, BEGUN, WRITTEN, committed], [Begin(ONE), Write(ONE), commit];
  }

  /** Begin, write, commit, and begin again with the same stamp: at the end the transaction is both in staging and
      in place. */
  lemma {:induction false} ReusedIdentifier(g: Setting)
    returns (states: seq<Store>, steps: seq<OutputRuns.Step>, last: Store)
    requires g.limits.maxFiles >= 1
    ensures Run(g, states, steps) && forall i | 0 <= i < |states| :: Exclusive(states[i])
    ensures Run(g, states + [last], steps + [Begin(ONE)]) && !OnePlaceEach(last)
    ensures ONE.staging in last.fs && ONE.final in last.fs
  {
    states, steps := OrdinaryRun(g);
    OneBeginIsFresh(states, steps);
    ExclusionNeedsFreshIds(g, states, steps);
    last := BegunAgain(g, states, steps, ONE);
  }
}
