/** Slash-separated paths: splitting, joining and lexical cleaning as in path/filepath. */
module Paths {
  import opened Text

  /** A path as its components below the store root. */
  type Path = seq<string>

  /** strings.Split(s, "/"): always at least one component. */
  function Split(s: string): (cs: seq<string>)
    ensures cs != []
  {
    if s == "" then [""]
    else if s[0] == '/' then [""] + Split(s[1..])
    else var rest := Split(s[1..]); [[s[0]] + rest[0]] + rest[1..]
  }

  function Join(cs: seq<string>): string {
    if cs == [] then ""
    else if |cs| == 1 then cs[0]
    else cs[0] + "/" + Join(cs[1..])
  }

  /** A component the file system can hold. */
  predicate IsName(c: string) {
    c != "" && c != "." && c != ".." && '/' !in c
  }

  predicate IsNames(cs: seq<string>) {
    forall i | 0 <= i < |cs| :: IsName(cs[i])
  }

  /** One component of filepath.Clean on a relative path. */
  function Push(stack: seq<string>, c: string): seq<string> {
    if c == "" || c == "." then stack
    else if c == ".." && stack != [] && stack[|stack| - 1] != ".." then stack[..|stack| - 1]
    else stack + [c]
  }

  function PushAll(stack: seq<string>, cs: seq<string>): seq<string>
    decreases |cs|
  {
    if cs == [] then stack else PushAll(Push(stack, cs[0]), cs[1..])
  }

  datatype PathError = EmptyPath | AbsolutePath | EscapingPath

  /** validateArtifactPath: trimmed, relative, cleaned, and not leaving the transaction. */
  function ValidatePath(path: string): Result<Path, PathError> {
    var p := Trim(path);
    if p == "" then Err(EmptyPath)
    else if p[0] == '/' then Err(AbsolutePath)
    else
      var cleaned := PushAll([], Split(p));
      if cleaned == [] || cleaned[0] == ".." then Err(EscapingPath) else Ok(cleaned)
  }

  // ---------------------------------------------------------------- splitting and joining

  lemma {:induction false} SplitJoinName(c: string, cs: seq<string>)
    requires '/' !in c
    ensures Split(c) == [c]
    ensures cs != [] ==> Split(c + "/" + Join(cs)) == [c] + Split(Join(cs))
  {
    if c == "" {
      assert "" + "/" + Join(cs) == "/" + Join(cs);
    } else {
      SplitJoinName(c[1..], cs);
      assert (c + "/" + Join(cs))[1..] == c[1..] + "/" + Join(cs);
      assert c == [c[0]] + c[1..];
    }
  }

  lemma {:induction false} SplitJoin(cs: seq<string>)
    requires cs != [] && IsNames(cs)
    ensures Split(Join(cs)) == cs
  {
    if |cs| == 1 {
      SplitJoinName(cs[0], []);
    } else {
      SplitJoin(cs[1..]);
      SplitJoinName(cs[0], cs[1..]);
      assert Join(cs) == cs[0] + "/" + Join(cs[1..]);
      assert [cs[0]] + cs[1..] == cs;
    }
  }

  lemma {:induction false} JoinInjective(a: seq<string>, b: seq<string>)
    requires a != [] && b != [] && IsNames(a) && IsNames(b) && Join(a) == Join(b)
    ensures a == b
  {
    SplitJoin(a);
    SplitJoin(b);
  }

  // ---------------------------------------------------------------- cleaning

  lemma {:induction false} PushNames(stack: seq<string>, cs: seq<string>)
    requires IsNames(cs)
    ensures PushAll(stack, cs) == stack + cs
    decreases |cs|
  {
    if cs != [] {
      PushNames(stack + [cs[0]], cs[1..]);
      assert Push(stack, cs[0]) == stack + [cs[0]];
    }
  }

  /** Length of the joined components plus one. */
  function Size(cs: seq<string>): nat {
    if cs == [] then 0 else Size(cs[..|cs| - 1]) + |cs[|cs| - 1]| + 1
  }

  lemma {:induction false} SizeConcat(a: seq<string>, b: seq<string>)
    ensures Size(a + b) == Size(a) + Size(b)
  {
    if b == [] {
      assert a + b == a;
    } else {
      assert (a + b)[..|a + b| - 1] == a + b[..|b| - 1];
      SizeConcat(a, b[..|b| - 1]);
    }
  }

  lemma {:induction false} JoinSize(cs: seq<string>)
    requires cs != []
    ensures Size(cs) == |Join(cs)| + 1
  {
    if |cs| == 1 {
      assert cs[..0] == [];
    } else {
      JoinSize(cs[1..]);
      assert cs == [cs[0]] + cs[1..];
      assert [cs[0]][..0] == [];
      SizeConcat([cs[0]], cs[1..]);
    }
  }

  lemma {:induction false} SplitSize(s: string)
    ensures Size(Split(s)) == |s| + 1
  {
    if s == "" {
      assert [""][..0] == [];
    } else if s[0] == '/' {
      SplitSize(s[1..]);
      SizeConcat([""], Split(s[1..]));
      assert [""][..0] == [];
    } else {
      SplitSize(s[1..]);
      var rest := Split(s[1..]);
      assert rest == [rest[0]] + rest[1..];
      SizeConcat([rest[0]], rest[1..]);
      SizeConcat([[s[0]] + rest[0]], rest[1..]);
      assert [rest[0]][..0] == [] && [[s[0]] + rest[0]][..0] == [];
    }
  }

  lemma {:induction false} PushAllShrinks(stack: seq<string>, cs: seq<string>)
    ensures Size(PushAll(stack, cs)) <= Size(stack) + Size(cs)
    decreases |cs|
  {
    if cs != [] {
      PushAllShrinks(Push(stack, cs[0]), cs[1..]);
      assert cs == [cs[0]] + cs[1..];
      SizeConcat([cs[0]], cs[1..]);
      assert [cs[0]][..0] == [];
      SizeConcat(stack, [cs[0]]);
    }
  }

  lemma {:induction false} SplitNoSlash(s: string)
    ensures forall i | 0 <= i < |Split(s)| :: '/' !in Split(s)[i]
  {
    if s != "" {
      SplitNoSlash(s[1..]);
    }
  }

  /** A cleaned path is k ".." components followed by names. */
  ghost predicate Cleaned(cs: seq<string>, k: nat) {
    k <= |cs| && forall i | 0 <= i < |cs| :: if i < k then cs[i] == ".." else IsName(cs[i])
  }

  lemma {:induction false} PushCleaned(stack: seq<string>, k: nat, c: string) returns (k': nat)
    requires Cleaned(stack, k) && '/' !in c
    ensures Cleaned(Push(stack, c), k')
  {
    k' := if c == ".." && |stack| == k then k + 1 else k;
  }

  lemma {:induction false} PushAllCleaned(stack: seq<string>, k: nat, cs: seq<string>) returns (k': nat)
    requires Cleaned(stack, k) && forall i | 0 <= i < |cs| :: '/' !in cs[i]
    ensures Cleaned(PushAll(stack, cs), k')
    decreases |cs|
  {
    if cs == [] {
      k' := k;
    } else {
      var next := PushCleaned(stack, k, cs[0]);
      k' := PushAllCleaned(Push(stack, cs[0]), next, cs[1..]);
    }
  }

  /** An accepted artifact path is a non-empty list of names, no longer than what was written. */
  lemma {:induction false} ValidatedNames(path: string)
    requires ValidatePath(path).Ok?
    ensures var p := ValidatePath(path).value;
      p != [] && IsNames(p) && |Join(p)| <= |Trim(path)| <= |path|
  {
    var t := Trim(path);
    var p := ValidatePath(path).value;
    SplitNoSlash(t);
    var k := PushAllCleaned([], 0, Split(t));
    assert k == 0;
    SplitSize(t);
    PushAllShrinks([], Split(t));
    JoinSize(p);
  }

  // ---------------------------------------------------------------- what cleaning does, without a stack

  /** How far below the start a path ends: names go down, ".." goes up, "" and "." stay. */
  function Depth(cs: seq<string>): int {
    if cs == [] then 0
    else
      var last := cs[|cs| - 1];
      Depth(cs[..|cs| - 1]) + if last == ".." then -1 else if last == "" || last == "." then 0 else 1
  }

  /** Somewhere on the way the path is above its start. */
  predicate Climbs(cs: seq<string>) {
    exists i | 0 <= i <= |cs| :: Depth(cs[..i]) < 0
  }

  lemma {:induction false} PushAllConcat(stack: seq<string>, a: seq<string>, b: seq<string>)
    ensures PushAll(stack, a + b) == PushAll(PushAll(stack, a), b)
    decreases |a|
  {
    if a == [] {
      assert a + b == b;
    } else {
      assert (a + b)[1..] == a[1..] + b;
      PushAllConcat(Push(stack, a[0]), a[1..], b);
    }
  }

  lemma {:induction false} PushAllLast(cs: seq<string>)
    requires cs != []
    ensures PushAll([], cs) == Push(PushAll([], cs[..|cs| - 1]), cs[|cs| - 1])
  {
    var front, last := cs[..|cs| - 1], cs[|cs| - 1];
    assert cs == front + [last];
    PushAllConcat([], front, [last]);
    assert [last][1..] == [];
  }

  lemma {:induction false} ClimbsLast(cs: seq<string>)
    requires cs != []
    ensures Climbs(cs) <==> Climbs(cs[..|cs| - 1]) || Depth(cs) < 0
  {
    var front := cs[..|cs| - 1];
    assert cs[..|cs|] == cs && forall i | 0 <= i <= |front| :: front[..i] == cs[..i];
    if Climbs(front) {
      var i :| 0 <= i <= |front| && Depth(front[..i]) < 0;
      assert Depth(cs[..i]) < 0;
    }
    if Climbs(cs) {
      var i :| 0 <= i <= |cs| && Depth(cs[..i]) < 0;
      assert i < |cs| ==> Depth(front[..i]) < 0;
    }
  }

  /** A path that never climbs is cleaned to as many names as it is deep, any other to one that begins with "..". */
  lemma {:induction false} CleanedDepth(cs: seq<string>)
    ensures !Climbs(cs) ==> ".." !in PushAll([], cs) && |PushAll([], cs)| == Depth(cs)
    ensures Climbs(cs) ==> PushAll([], cs) != [] && PushAll([], cs)[0] == ".."
  {
    if cs == [] {
      assert forall i | 0 <= i <= |cs| :: cs[..i] == [];
    } else {
      CleanedDepth(cs[..|cs| - 1]);
      PushAllLast(cs);
      ClimbsLast(cs);
    }
  }

  /** Accepted are exactly the relative paths that end below their start and are never above it; what is accepted
      has as many names as the path is deep. */
  lemma {:induction false} AcceptedDepth(path: string)
    ensures var t := Trim(path);
      ValidatePath(path).Ok? <==> t != "" && t[0] != '/' && !Climbs(Split(t)) && Depth(Split(t)) > 0
    ensures ValidatePath(path).Ok? ==> |ValidatePath(path).value| == Depth(Split(Trim(path)))
    ensures ValidatePath(path) == Err(EmptyPath) <==> AllSpace(path)
    ensures ValidatePath(path) == Err(AbsolutePath) <==> Trim(path) != "" && Trim(path)[0] == '/'
  {
    CleanedDepth(Split(Trim(path)));
    var before, after := TrimMeaning(path);
    assert Trim(path) == "" ==> path == before + after;
    assert Trim(path) != "" ==> path[|before|] == Trim(path)[0];
  }

  /** A name followed by ".." can be left out, and so can "" and ".". */
  lemma {:induction false} DetourIsNothing(a: seq<string>, detour: seq<string>, b: seq<string>)
    requires detour == [""] || detour == ["."] || (|detour| == 2 && IsName(detour[0]) && detour[1] == "..")
    ensures PushAll([], a + detour + b) == PushAll([], a + b)
  {
    var stack := PushAll([], a);
    PushAllConcat([], a + detour, b);
    PushAllConcat([], a, detour);
    PushAllConcat([], a, b);
    if |detour| == 1 {
      assert detour[1..] == [];
    } else {
      assert detour[1..] == [".."] && [".."][1..] == [];
      var down := stack + [detour[0]];
      assert Push(stack, detour[0]) == down && down[..|down| - 1] == stack;
    }
  }

  /** Two texts that differ by such a detour name the same artifact. */
  lemma {:induction false} SameArtifactPath(p: string, q: string, a: seq<string>, detour: seq<string>, b: seq<string>)
    requires Trim(p) != "" && Trim(q) != "" && Trim(p)[0] != '/' && Trim(q)[0] != '/'
    requires Split(Trim(p)) == a + detour + b && Split(Trim(q)) == a + b
    requires detour == [""] || detour == ["."] || (|detour| == 2 && IsName(detour[0]) && detour[1] == "..")
    ensures ValidatePath(p) == ValidatePath(q)
  {
    DetourIsNothing(a, detour, b);
  }

  predicate Letters(s: string, ok: char -> bool) {
    forall i | 0 <= i < |s| :: ok(s[i])
  }

  ghost predicate AllLetters(cs: seq<string>, ok: char -> bool) {
    forall i | 0 <= i < |cs| :: Letters(cs[i], ok)
  }

  lemma {:induction false} SplitLetters(s: string, ok: char -> bool)
    requires Letters(s, ok)
    ensures AllLetters(Split(s), ok)
  {
    if s != "" {
      assert Letters(s[1..], ok);
      SplitLetters(s[1..], ok);
    }
  }

  lemma {:induction false} PushAllLetters(stack: seq<string>, cs: seq<string>, ok: char -> bool)
    requires AllLetters(stack, ok) && AllLetters(cs, ok)
    ensures AllLetters(PushAll(stack, cs), ok)
    decreases |cs|
  {
    if cs != [] {
      assert AllLetters(Push(stack, cs[0]), ok) && AllLetters(cs[1..], ok);
      PushAllLetters(Push(stack, cs[0]), cs[1..], ok);
    }
  }

  lemma {:induction false} JoinLetters(cs: seq<string>, ok: char -> bool)
    requires AllLetters(cs, ok) && ok('/')
    ensures Letters(Join(cs), ok)
  {
    if |cs| > 1 {
      JoinLetters(cs[1..], ok);
    }
  }

  lemma {:induction false} TrimLeftLetters(s: string, ok: char -> bool)
    requires Letters(s, ok)
    ensures Letters(TrimLeft(s), ok)
  {
    if TrimLeft(s) != s {
      TrimLeftLetters(s[1..], ok);
    }
  }

  /** An accepted artifact path has no characters but those of the text it was read from. */
  lemma {:induction false} ValidatedLetters(path: string, ok: char -> bool)
    requires Letters(path, ok) && ok('/') && ValidatePath(path).Ok?
    ensures Letters(Join(ValidatePath(path).value), ok)
  {
    TrimLeftLetters(path, ok);
    assert TrimRight(TrimLeft(path)) <= TrimLeft(path);
    SplitLetters(Trim(path), ok);
    PushAllLetters([], Split(Trim(path)), ok);
    JoinLetters(ValidatePath(path).value, ok);
  }

  /** The path of a file in a tree is accepted as itself exactly when trimming leaves it alone. */
  lemma {:induction false} ValidateOwnPath(p: Path)
    requires p != [] && IsNames(p)
    ensures Trim(Join(p)) == Join(p) <==> ValidatePath(Join(p)) == Ok(p)
    ensures Trim(Join(p)) != Join(p) && ValidatePath(Join(p)).Ok? ==>
      |Join(ValidatePath(Join(p)).value)| < |Join(p)|
  {
    var s := Join(p);
    SplitJoin(p);
    PushNames([], p);
    assert [] + p == p;
    assert s != "" && s[0] != '/' by {
      assert IsName(p[0]);
      if |p| > 1 { assert s == p[0] + "/" + Join(p[1..]); }
    }
    if Trim(s) != s {
      TrimShorter(s);
      if ValidatePath(s).Ok? {
        ValidatedNames(s);
      }
    }
  }

  lemma {:induction false} TrimShorter(s: string)
    requires Trim(s) != s
    ensures |Trim(s)| < |s|
  {
    if TrimLeft(s) == s {
      assert TrimRight(s) <= s;
    } else {
      assert |TrimLeft(s)| < |s|;
    }
  }
}
