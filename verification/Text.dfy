/** Strings as the Go standard library treats them here: trimming, ordering and sorting. */
module Text {

  datatype Option<+T> = None | Some(value: T)

  datatype Result<+T, +E> = Ok(value: T) | Err(error: E)

  /** unicode.IsSpace. */
  predicate IsSpace(c: char) {
    || '\t' <= c <= '\r'
    || c == ' '
    || c as int in {0x85, 0xA0, 0x1680, 0x2028, 0x2029, 0x202F, 0x205F, 0x3000}
    || 0x2000 <= c as int <= 0x200A
  }

  function TrimLeft(s: string): (t: string)
    ensures |t| <= |s|
    ensures t != "" ==> !IsSpace(t[0])
  {
    if s != "" && IsSpace(s[0]) then TrimLeft(s[1..]) else s
  }

  function TrimRight(s: string): (t: string)
    ensures t <= s
    ensures t != "" ==> !IsSpace(t[|t| - 1])
  {
    if s != "" && IsSpace(s[|s| - 1]) then TrimRight(s[..|s| - 1]) else s
  }

  /** strings.TrimSpace. */
  function Trim(s: string): (t: string)
    ensures |t| <= |s|
  {
    TrimRight(TrimLeft(s))
  }

  lemma {:induction false} TrimmedEnds(s: string)
    ensures var t := Trim(s); t != "" ==> !IsSpace(t[0]) && !IsSpace(t[|t| - 1])
  {
    var left := TrimLeft(s);
    assert Trim(s) <= left;
  }

  predicate AllSpace(s: string) {
    forall i | 0 <= i < |s| :: IsSpace(s[i])
  }

  lemma {:induction false} TrimLeftCuts(s: string) returns (cut: string)
    ensures s == cut + TrimLeft(s) && AllSpace(cut)
  {
    cut := "";
    if s != "" && IsSpace(s[0]) {
      cut := TrimLeftCuts(s[1..]);
      cut := [s[0]] + cut;
    }
  }

  lemma {:induction false} TrimRightCuts(s: string) returns (cut: string)
    ensures s == TrimRight(s) + cut && AllSpace(cut)
  {
    cut := "";
    if s != "" && IsSpace(s[|s| - 1]) {
      cut := TrimRightCuts(s[..|s| - 1]);
      cut := cut + [s[|s| - 1]];
    }
  }

  /** Trimming cuts white space off both ends, all of it, and nothing else. */
  lemma {:induction false} TrimMeaning(s: string) returns (before: string, after: string)
    ensures s == before + Trim(s) + after && AllSpace(before) && AllSpace(after)
    ensures Trim(s) != "" ==> !IsSpace(Trim(s)[0]) && !IsSpace(Trim(s)[|Trim(s)| - 1])
  {
    before := TrimLeftCuts(s);
    after := TrimRightCuts(TrimLeft(s));
    TrimmedEnds(s);
  }

  lemma {:induction false} TrimIdempotent(s: string)
    ensures Trim(Trim(s)) == Trim(s)
  {
    TrimmedEnds(s);
  }

  /** strings.ToLower on the characters that occur in hexadecimal digests. */
  function LowerChar(c: char): char {
    if 'A' <= c <= 'Z' then c + ('a' as int - 'A' as int) as char else c
  }

  function Lower(s: string): (t: string)
    ensures |t| == |s|
    ensures forall i | 0 <= i < |s| ::
      if 65 <= s[i] as int <= 90 then t[i] as int == s[i] as int + 32 else t[i] == s[i]
  {
    seq(|s|, i requires 0 <= i < |s| => LowerChar(s[i]))
  }

  /** strings.ToUpper on unaccented letters. */
  function UpperChar(c: char): char {
    if 'a' <= c <= 'z' then (c as int - ('a' as int - 'A' as int)) as char else c
  }

  function Upper(s: string): (t: string)
    ensures |t| == |s|
    ensures forall i | 0 <= i < |s| ::
      if 97 <= s[i] as int <= 122 then t[i] as int == s[i] as int - 32 else t[i] == s[i]
  {
    seq(|s|, i requires 0 <= i < |s| => UpperChar(s[i]))
  }

  lemma {:induction false} TrimFixed(s: string)
    requires s != "" ==> !IsSpace(s[0]) && !IsSpace(s[|s| - 1])
    ensures Trim(s) == s
  {}

  lemma {:induction false} UpperIdempotent(s: string)
    ensures Upper(Upper(s)) == Upper(s)
  {
    forall i | 0 <= i < |s| ensures Upper(Upper(s))[i] == Upper(s)[i] {}
  }

  lemma {:induction false} UpperKeepsEnds(s: string)
    requires s != "" && !IsSpace(s[0]) && !IsSpace(s[|s| - 1])
    ensures !IsSpace(Upper(s)[0]) && !IsSpace(Upper(s)[|s| - 1])
  {}

  lemma {:induction false} UpperTrimIdempotent(s: string)
    ensures Upper(Trim(Upper(Trim(s)))) == Upper(Trim(s))
  {
    var t := Trim(s);
    TrimmedEnds(s);
    if t != "" { UpperKeepsEnds(t); }
    TrimFixed(Upper(t));
    UpperIdempotent(t);
  }

  /** Go's string comparison. */
  predicate Less(a: string, b: string) {
    if b == "" then false
    else if a == "" then true
    else if a[0] != b[0] then a[0] < b[0]
    else Less(a[1..], b[1..])
  }

  /** The texts agree before k, where a has the smaller character. */
  predicate SmallerAt(a: string, b: string, k: nat) {
    k < |a| && k < |b| && a[..k] == b[..k] && a[k] as int < b[k] as int
  }

  lemma {:induction false} SmallerBehind(c: char, x: string, y: string, k: nat)
    ensures SmallerAt([c] + x, [c] + y, k + 1) <==> SmallerAt(x, y, k)
    ensures !SmallerAt([c] + x, [c] + y, 0)
    ensures [c] + x < [c] + y <==> x < y
  {
    if k < |x| && k < |y| {
      assert ([c] + x)[..k + 1] == [c] + x[..k] && ([c] + y)[..k + 1] == [c] + y[..k];
      assert ([c] + x[..k])[1..] == x[..k] && ([c] + y[..k])[1..] == y[..k];
    }
    if [c] + x < [c] + y {
      assert x == ([c] + x)[1..] && y[..|x|] == ([c] + y)[..|x| + 1][1..];
    }
  }

  /** One text comes before another if it is a proper beginning of it, or has the smaller character where they first
      differ. */
  lemma {:induction false} LessMeaning(a: string, b: string)
    ensures Less(a, b) <==> a < b || exists k: nat :: SmallerAt(a, b, k)
  {
    if a == "" || b == "" {
    } else if a[0] == b[0] {
      var x, y := a[1..], b[1..];
      assert a == [a[0]] + x && b == [a[0]] + y;
      LessMeaning(x, y);
      SmallerBehind(a[0], x, y, 0);
      if k: nat :| SmallerAt(x, y, k) {
        SmallerBehind(a[0], x, y, k);
        assert SmallerAt(a, b, k + 1);
      }
      if k: nat :| SmallerAt(a, b, k) {
        assert k > 0;
        SmallerBehind(a[0], x, y, k - 1);
      }
    } else {
      assert a[..0] == b[..0];
      assert a[0] < b[0] ==> SmallerAt(a, b, 0);
      if k: nat :| SmallerAt(a, b, k) {
        assert k > 0 ==> a[..k][0] == b[..k][0];
      }
    }
  }

  lemma {:induction false} LessIrreflexive(a: string)
    ensures !Less(a, a)
  {
    if a != "" { LessIrreflexive(a[1..]); }
  }

  lemma {:induction false} LessTransitive(a: string, b: string, c: string)
    requires Less(a, b) && Less(b, c)
    ensures Less(a, c)
  {
    if a != "" && a[0] == b[0] && b[0] == c[0] {
      LessTransitive(a[1..], b[1..], c[1..]);
    }
  }

  lemma {:induction false} LessTotal(a: string, b: string)
    ensures Less(a, b) || a == b || Less(b, a)
  {
    if a != "" && b != "" && a[0] == b[0] {
      LessTotal(a[1..], b[1..]);
      assert a == [a[0]] + a[1..] && b == [b[0]] + b[1..];
    }
  }

  ghost predicate StrictlySorted(xs: seq<string>) {
    forall i, j | 0 <= i < j < |xs| :: Less(xs[i], xs[j])
  }

  /** Where x goes in a strictly sorted sequence that does not hold it. */
  function Insert(x: string, xs: seq<string>): (ys: seq<string>)
    ensures multiset(ys) == multiset(xs) + multiset{x}
  {
    if xs == [] || Less(x, xs[0]) then
      assert [x] + xs == [x] + xs;
      [x] + xs
    else
      assert xs == [xs[0]] + xs[1..];
      [xs[0]] + Insert(x, xs[1..])
  }

  /** sort.Strings. */
  function Sort(xs: seq<string>): (ys: seq<string>)
    ensures multiset(ys) == multiset(xs)
  {
    if xs == [] then []
    else
      assert xs == [xs[0]] + xs[1..];
      Insert(xs[0], Sort(xs[1..]))
  }

  lemma {:induction false} SameMembers(xs: seq<string>, ys: seq<string>)
    requires multiset(xs) == multiset(ys)
    ensures forall x :: x in xs <==> x in ys
  {
    forall x ensures x in xs <==> x in ys {
      assert x in multiset(xs) <==> x in multiset(ys);
    }
  }

  lemma {:induction false} InsertSorted(x: string, xs: seq<string>)
    requires StrictlySorted(xs) && x !in xs
    ensures StrictlySorted(Insert(x, xs))
    ensures forall y :: y in Insert(x, xs) <==> y == x || y in xs
  {
    var ys := Insert(x, xs);
    SameMembers(ys, xs + [x]);
    if xs == [] {
    } else if Less(x, xs[0]) {
      forall j | 0 < j < |ys| ensures Less(x, ys[j]) {
        if j > 1 { LessTransitive(x, xs[0], xs[j - 1]); }
      }
    } else {
      LessTotal(x, xs[0]);
      InsertSorted(x, xs[1..]);
      var rest := Insert(x, xs[1..]);
      forall j | 0 < j < |ys| ensures Less(ys[0], ys[j]) {
        assert ys[j] == rest[j - 1] && rest[j - 1] in rest;
      }
    }
  }

  ghost predicate Distinct(xs: seq<string>) {
    forall i, j | 0 <= i < j < |xs| :: xs[i] != xs[j]
  }

  /** Sorting a list without repeats puts it in strict order and keeps its members. */
  lemma {:induction false} SortSorted(xs: seq<string>)
    requires Distinct(xs)
    ensures StrictlySorted(Sort(xs))
    ensures forall y :: y in Sort(xs) <==> y in xs
  {
    SameMembers(Sort(xs), xs);
    if xs != [] {
      SortSorted(xs[1..]);
      InsertSorted(xs[0], Sort(xs[1..]));
    }
  }

  lemma {:induction false} FirstIsMember<T>(xs: seq<T>)
    ensures xs != [] ==> xs[0] in xs
  {}

  /** A strictly sorted sequence is determined by its members. */
  lemma {:induction false} SortedUnique(xs: seq<string>, ys: seq<string>)
    requires StrictlySorted(xs) && StrictlySorted(ys)
    requires forall x :: x in xs <==> x in ys
    ensures xs == ys
  {
    if xs == [] {
      FirstIsMember(ys);
    } else {
      assert xs[0] in ys && ys != [];
      assert ys[0] in xs;
      var i :| 0 <= i < |ys| && ys[i] == xs[0];
      var j :| 0 <= j < |xs| && xs[j] == ys[0];
      LessIrreflexive(xs[0]);
      if i > 0 && j > 0 { LessTransitive(xs[0], ys[0], xs[0]); }
      assert xs[0] == ys[0];
      forall x ensures x in xs[1..] <==> x in ys[1..] {
        if x in xs[1..] { assert x in ys && Less(xs[0], x); LessIrreflexive(x); }
        if x in ys[1..] { assert x in xs && Less(ys[0], x); LessIrreflexive(x); }
      }
      SortedUnique(xs[1..], ys[1..]);
    }
  }
}
