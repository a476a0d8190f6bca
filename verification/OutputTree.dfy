/** The file system under a transaction store's root, and the operations the store uses. */
module OutputTree {
  import opened Digests
  import opened Text
  import opened Paths

  /** mode holds the permission bits. */
  datatype Node = Dir | File(data: Bytes, mode: nat) | Symlink | Other

  /** Every existing path below the store root. */
  type Tree = map<Path, Node>

  const MANIFEST := ".aegis-commit.json"
  const STAGING := "staging"
  const COMMITTED := "committed"

  /** p lies strictly below root. */
  predicate Below(root: Path, p: Path) {
    root < p
  }

  ghost predicate IsArtifact(fs: Tree, root: Path, p: Path) {
    p in fs && Below(root, p) && fs[p].File? && p != root + [MANIFEST]
  }

  ghost function Artifacts(fs: Tree, root: Path): set<Path> {
    set p | p in fs && IsArtifact(fs, root, p)
  }

  // ---------------------------------------------------------------- permission bits

  predicate Bit(mode: nat, weight: nat)
    requires weight > 0
  {
    mode / weight % 2 == 1
  }

  /** mode & 0o111 */
  predicate Executable(mode: nat) {
    Bit(mode, 1) || Bit(mode, 8) || Bit(mode, 64)
  }

  /** mode & 0o222 */
  predicate Writable(mode: nat) {
    Bit(mode, 2) || Bit(mode, 16) || Bit(mode, 128)
  }

  /** The three octal digits of a mode: owner, group, others. */
  lemma {:induction false} PermissionDigits(owner: nat, group: nat, others: nat)
    requires owner < 8 && group < 8 && others < 8
    ensures var mode := 64 * owner + 8 * group + others;
      && (Executable(mode) <==> owner % 2 == 1 || group % 2 == 1 || others % 2 == 1)
      && (Writable(mode) <==> owner / 2 % 2 == 1 || group / 2 % 2 == 1 || others / 2 % 2 == 1)
  {
    LowDigit(owner, group, others);
    MiddleDigit(owner, group, others);
    HighDigit(owner, group, others);
  }

  lemma {:induction false} LowDigit(owner: nat, group: nat, others: nat)
    requires owner < 8 && group < 8 && others < 8
    ensures Bit(64 * owner + 8 * group + others, 1) <==> others % 2 == 1
    ensures Bit(64 * owner + 8 * group + others, 2) <==> others / 2 % 2 == 1
  {}

  lemma {:induction false} MiddleDigit(owner: nat, group: nat, others: nat)
    requires owner < 8 && group < 8 && others < 8
    ensures Bit(64 * owner + 8 * group + others, 8) <==> group % 2 == 1
    ensures Bit(64 * owner + 8 * group + others, 16) <==> group / 2 % 2 == 1
  {}

  lemma {:induction false} HighDigit(owner: nat, group: nat, others: nat)
    requires owner < 8 && group < 8 && others < 8
    ensures Bit(64 * owner + 8 * group + others, 64) <==> owner % 2 == 1
    ensures Bit(64 * owner + 8 * group + others, 128) <==> owner / 2 % 2 == 1
  {}

  const READ_ONLY := 292           // 0o444
  const READ_AND_EXECUTE := 365    // 0o555

  function PublishedMode(mode: nat): (m: nat)
    ensures !Writable(m) && (Executable(m) <==> Executable(mode))
    ensures m == 4 * 64 + 4 * 8 + 4 || m == 5 * 64 + 5 * 8 + 5
  {
    if Executable(mode) then READ_AND_EXECUTE else READ_ONLY
  }

  /** fmt %04o of the two published modes. */
  function ModeText(mode: nat): string {
    if mode == READ_AND_EXECUTE then "0555" else "0444"
  }

  /** strconv.ParseUint(s, 8, 32). */
  function ParseOctal(s: string): Option<nat> {
    if s == "" then None
    else
      var v := Octal(s);
      if v.Some? && v.value < 0x1_0000_0000 then v else None
  }

  function Octal(s: string): Option<nat> {
    if s == "" then Some(0)
    else
      var high := Octal(s[..|s| - 1]);
      var c := s[|s| - 1];
      if high.Some? && '0' <= c <= '7' then Some(8 * high.value + (c as int - '0' as int)) else None
  }

  lemma {:induction false} OctalDigits(a: char, b: char, c: char, d: char)
    requires '0' <= a <= '7' && '0' <= b <= '7' && '0' <= c <= '7' && '0' <= d <= '7'
    ensures ParseOctal([a, b, c, d]) == Some(
      512 * (a as int - '0' as int) + 64 * (b as int - '0' as int) + 8 * (c as int - '0' as int) + (d as int - '0' as int))
  {
    assert [a, b, c, d][..3] == [a, b, c] && [a, b, c][..2] == [a, b] && [a, b][..1] == [a] && [a][..0] == "";
    assert Octal([a]) == Some(a as int - '0' as int);
    assert Octal([a, b]) == Some(8 * (a as int - '0' as int) + (b as int - '0' as int));
    assert Octal([a, b, c]).Some?;
  }

  lemma {:induction false} ModeRoundTrip(mode: nat)
    ensures ParseOctal(ModeText(PublishedMode(mode))) == Some(PublishedMode(mode))
  {
    OctalDigits('0', '4', '4', '4');
    OctalDigits('0', '5', '5', '5');
    assert "0444" == ['0', '4', '4', '4'] && "0555" == ['0', '5', '5', '5'];
  }

  // ---------------------------------------------------------------- chmod and rename

  function Protect(n: Node): Node {
    if n.File? then File(n.data, PublishedMode(n.mode)) else n
  }

  /** chmod of the given files to their published modes. */
  function ProtectAll(fs: Tree, paths: set<Path>): (r: Tree)
    ensures r.Keys == fs.Keys
  {
    map p | p in fs :: if p in paths then Protect(fs[p]) else fs[p]
  }

  /** Every entry is made of names and lies in directories; the two store directories exist. */
  ghost predicate WellFormed(fs: Tree) {
    && (forall p | p in fs :: p != [] && IsNames(p))
    && (forall p, i | p in fs && 0 < i < |p| :: IsDir(fs, p[..i]))
    && IsDir(fs, [STAGING]) && IsDir(fs, [COMMITTED])
  }

  predicate IsDir(fs: Tree, p: Path) {
    p in fs && fs[p].Dir?
  }

  /** os.MkdirAll can succeed. */
  predicate CanMakeAll(fs: Tree, dir: Path) {
    forall i | 0 < i <= |dir| :: dir[..i] in fs ==> fs[dir[..i]].Dir?
  }

  function Prefixes(dir: Path): set<Path> {
    set i | 0 < i <= |dir| :: dir[..i]
  }

  /** os.MkdirAll. */
  function MadeAll(fs: Tree, dir: Path): Tree {
    map p | p in fs.Keys + Prefixes(dir) :: if p in fs then fs[p] else Dir
  }

  /** os.RemoveAll. */
  function RemovedAll(fs: Tree, dir: Path): Tree {
    map p | p in fs && !(dir <= p) :: fs[p]
  }

  /** os.Rename of a directory to a path where nothing exists. */
  function Renamed(fs: Tree, from: Path, to: Path): Tree {
    var kept := map p | p in fs && !(from <= p) :: fs[p];
    var targets := set q | q in fs && from <= q :: to + q[|from|..];
    var moved := map p | p in targets && to <= p && from + p[|to|..] in fs :: fs[from + p[|to|..]];
    kept + moved
  }

  /** Whatever lay at or below from now lies at the same place at or below to. */
  lemma {:induction false} RenamedBelow(fs: Tree, from: Path, to: Path, q: Path)
    requires forall p | p in fs :: !(to <= p)
    ensures to + q in Renamed(fs, from, to) <==> from + q in fs
    ensures from + q in fs ==> Renamed(fs, from, to)[to + q] == fs[from + q]
  {
    assert to <= to + q && (to + q)[|to|..] == q;
    if from + q in fs {
      assert from <= from + q && (from + q)[|from|..] == q;
    }
  }

  lemma {:induction false} RenamedElsewhere(fs: Tree, from: Path, to: Path, p: Path)
    requires !(to <= p)
    ensures p in Renamed(fs, from, to) <==> p in fs && !(from <= p)
    ensures p in fs && !(from <= p) ==> Renamed(fs, from, to)[p] == fs[p]
  {
    forall q | q in fs && from <= q ensures to + q[|from|..] != p {
      assert to <= to + q[|from|..];
    }
  }

  // ---------------------------------------------------------------- sizes

  function Weight(fs: Tree, p: Path): nat {
    if p in fs && fs[p].File? then |fs[p].data| else 0
  }

  /** Total size of a set of files. */
  ghost function SizeOf(fs: Tree, files: set<Path>): nat {
    if files == {} then 0
    else
      var p :| p in files;
      Weight(fs, p) + SizeOf(fs, files - {p})
  }

  /** The total does not depend on the order in which the files are added. */
  lemma {:induction false} SizeOfAdd(fs: Tree, files: set<Path>, p: Path)
    requires p !in files
    ensures SizeOf(fs, files + {p}) == SizeOf(fs, files) + Weight(fs, p)
    decreases |files|
  {
    var all := files + {p};
    var q :| q in all && SizeOf(fs, all) == Weight(fs, q) + SizeOf(fs, all - {q});
    if q == p {
      assert all - {q} == files;
    } else {
      var rest := files - {q};
      assert all - {q} == rest + {p};
      SizeOfAdd(fs, rest, p);
      assert files == rest + {q};
      SizeOfAdd(fs, rest, q);
    }
  }

  lemma {:induction false} SizeOfRemove(fs: Tree, files: set<Path>, p: Path)
    requires p in files
    ensures SizeOf(fs, files) == SizeOf(fs, files - {p}) + Weight(fs, p)
    ensures |files| == |files - {p}| + 1
  {
    assert files == (files - {p}) + {p};
    SizeOfAdd(fs, files - {p}, p);
  }

  lemma {:induction false} SizeOfMonotone(fs: Tree, small: set<Path>, big: set<Path>)
    requires small <= big
    ensures SizeOf(fs, small) <= SizeOf(fs, big)
    decreases |big - small|
  {
    if big - small == {} {
      assert small == big;
    } else {
      var p :| p in big - small;
      SizeOfAdd(fs, small, p);
      assert big - (small + {p}) == (big - small) - {p};
      SizeOfMonotone(fs, small + {p}, big);
    }
  }

  // ---------------------------------------------------------------- walking

  /** A listing of everything strictly below root, in the order of a walk (any order). */
  ghost predicate Lists(fs: Tree, root: Path, listing: seq<Path>) {
    && (forall p :: p in listing <==> p in fs && Below(root, p))
    && forall i, j | 0 <= i < j < |listing| :: listing[i] != listing[j]
  }

  method WalkDir(fs: Tree, root: Path) returns (listing: seq<Path>)
    ensures Lists(fs, root, listing)
  {
    listing := [];
    var unseen := set p | p in fs && Below(root, p);
    while unseen != {}
      invariant forall p :: p in fs && Below(root, p) <==> p in listing || p in unseen
      invariant forall p | p in listing :: p !in unseen
      invariant forall i, j | 0 <= i < j < |listing| :: listing[i] != listing[j]
      decreases |unseen|
    {
      var p :| p in unseen;
      unseen := unseen - {p};
      listing := listing + [p];
    }
  }
}
