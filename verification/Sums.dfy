/** Totals over sequences, used for the counters and for the termination measure. */
module Sums {

  function Sum<T>(xs: seq<T>, f: T -> nat): nat {
    if xs == [] then 0 else f(xs[0]) + Sum(xs[1..], f)
  }

  lemma {:induction false} SumAppend<T>(xs: seq<T>, ys: seq<T>, f: T -> nat)
    ensures Sum(xs + ys, f) == Sum(xs, f) + Sum(ys, f)
  {
    if xs == [] {
      assert xs + ys == ys;
    } else {
      assert (xs + ys)[1..] == xs[1..] + ys;
      SumAppend(xs[1..], ys, f);
    }
  }

  lemma {:induction false} SumUpdate<T>(xs: seq<T>, i: nat, x: T, f: T -> nat)
    requires i < |xs|
    ensures Sum(xs[i := x], f) == Sum(xs, f) - f(xs[i]) + f(x)
    ensures f(xs[i]) <= Sum(xs, f)
  {
    var ys := xs[i := x];
    if i == 0 {
      assert ys[1..] == xs[1..];
    } else {
      assert ys[1..] == xs[1..][i - 1 := x];
      SumUpdate(xs[1..], i - 1, x, f);
    }
  }

  /** Pointwise f is at most g plus slack. */
  lemma {:induction false} SumBounded<T, U>(xs: seq<T>, ys: seq<U>, f: T -> nat, g: U -> nat, slack: nat)
    requires |xs| == |ys|
    requires forall i | 0 <= i < |xs| :: f(xs[i]) <= g(ys[i]) + slack
    ensures Sum(xs, f) <= Sum(ys, g) + slack * |xs|
  {
    if xs != [] {
      assert forall i | 0 <= i < |xs[1..]| :: xs[1..][i] == xs[i + 1] && ys[1..][i] == ys[i + 1];
      SumBounded(xs[1..], ys[1..], f, g, slack);
      assert slack * |xs| == slack + slack * |xs[1..]|;
    }
  }

  lemma {:induction false} SumZero<T>(xs: seq<T>, f: T -> nat)
    ensures Sum(xs, f) == 0 <==> forall x | x in xs :: f(x) == 0
  {
    if xs != [] {
      SumZero(xs[1..], f);
      assert forall x :: x in xs <==> x == xs[0] || x in xs[1..];
    }
  }

  /** What a uint64 holds. */
  const TWO_64 := 0x1_0000_0000_0000_0000

  /** Reducing early does not change a 64-bit total. */
  lemma {:induction false} WrapAdd(a: nat, b: nat)
    ensures (a % TWO_64 + b) % TWO_64 == (a + b) % TWO_64
  {}
}
