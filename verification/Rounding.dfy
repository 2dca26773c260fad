/** Two-decimal rounding on exact numbers, and sums over a sequence. */
module Rounding {

  /** A whole number of cents. */
  predicate IsCents(x: real) {
    (x * 100.0).Floor as real == x * 100.0
  }

  function Abs(x: real): real {
    if x < 0.0 then -x else x
  }

  /** `Math.round`: half goes up, also below zero. */
  function MathRound(y: real): (k: int)
    ensures k as real - 0.5 <= y < k as real + 0.5
    ensures y.Floor as real == y ==> k == y.Floor
  {
    (y + 0.5).Floor
  }

  function FromCents(k: int): (x: real)
    ensures x * 100.0 == k as real
    ensures IsCents(x)
  {
    k as real / 100.0
  }

  /** Half up to two decimals, `Math.round(n * 100) / 100`: the result is a number
      of cents, at most half a cent away, and cents stay as they are. */
  function Round2(x: real): (r: real)
    ensures IsCents(r)
    ensures r - 0.005 <= x < r + 0.005
    ensures IsCents(x) ==> r == x
  {
    FromCents(MathRound(x * 100.0))
  }

  /** Cents add up without rounding. */
  lemma CentsClosed(x: real, y: real)
    requires IsCents(x) && IsCents(y)
    ensures IsCents(x + y) && IsCents(x - y)
  {
    var j, k := (x * 100.0).Floor, (y * 100.0).Floor;
    WholeCents(x + y, j + k);
    WholeCents(x - y, j - k);
  }

  lemma WholeCents(x: real, k: int)
    requires x * 100.0 == k as real
    ensures IsCents(x)
  {}

  function Sum<T>(xs: seq<T>, f: T -> real): real {
    if xs == [] then 0.0 else Sum(xs[..|xs| - 1], f) + f(xs[|xs| - 1])
  }

  lemma SumSnoc<T>(xs: seq<T>, k: nat, f: T -> real)
    requires k < |xs|
    ensures Sum(xs[..k + 1], f) == Sum(xs[..k], f) + f(xs[k])
  {
    assert xs[..k + 1][..k] == xs[..k];
  }

  lemma {:induction false} SumOfCents<T>(xs: seq<T>, f: T -> real)
    requires forall x :: x in xs ==> IsCents(f(x))
    ensures IsCents(Sum(xs, f))
  {
    if xs != [] {
      SumOfCents(xs[..|xs| - 1], f);
      CentsClosed(Sum(xs[..|xs| - 1], f), f(xs[|xs| - 1]));
    }
  }

  lemma {:induction false} SumRemove<T>(xs: seq<T>, k: nat, f: T -> real)
    requires k < |xs|
    ensures Sum(xs, f) == Sum(xs[..k] + xs[k + 1..], f) + f(xs[k])
  {
    var last := |xs| - 1;
    if k == last {
      assert xs[..k] + xs[k + 1..] == xs[..last];
    } else {
      var rest := xs[..k] + xs[k + 1..];
      SumRemove(xs[..last], k, f);
      assert rest[..|rest| - 1] == xs[..last][..k] + xs[..last][k + 1..];
      assert rest[|rest| - 1] == xs[last];
    }
  }

  /** A sum does not depend on the order of its terms. */
  lemma {:induction false} SumPermutes<T>(xs: seq<T>, ys: seq<T>, f: T -> real)
    requires multiset(xs) == multiset(ys)
    ensures Sum(xs, f) == Sum(ys, f)
    decreases |xs|
  {
    if xs == [] {
      assert |ys| == |multiset(ys)| == 0;
    } else {
      var x := xs[|xs| - 1];
      assert x in multiset(ys);
      var k :| 0 <= k < |ys| && ys[k] == x;
      var rest := ys[..k] + ys[k + 1..];
      assert ys == ys[..k] + [x] + ys[k + 1..];
      assert xs == xs[..|xs| - 1] + [x];
      assert multiset(rest) == multiset(ys) - multiset{x};
      SumPermutes(xs[..|xs| - 1], rest, f);
      SumRemove(ys, k, f);
    }
  }

  lemma OneMore(a: real, b: real, eps: real, n: nat)
    requires Abs(a) <= eps * (n as real) && Abs(b) <= eps
    ensures Abs(a + b) <= eps * ((n + 1) as real)
  {
    assert (n + 1) as real == n as real + 1.0;
    assert eps * ((n + 1) as real) == eps * (n as real) + eps;
  }

  lemma NoError(eps: real)
    ensures Abs(0.0) <= eps * (0 as real)
  {}

  /** Per-term error bounds add up. */
  lemma {:induction false} SumErrorBound<T>(xs: seq<T>, f: T -> real, g: T -> real, eps: real)
    requires forall x :: x in xs ==> Abs(f(x) - g(x)) <= eps
    ensures Abs(Sum(xs, f) - Sum(xs, g)) <= eps * (|xs| as real)
  {
    hide Abs;
    if xs == [] {
      NoError(eps);
    } else {
      SumErrorBound(xs[..|xs| - 1], f, g, eps);
      var x := xs[|xs| - 1];
      OneMore(Sum(xs[..|xs| - 1], f) - Sum(xs[..|xs| - 1], g), f(x) - g(x), eps, |xs| - 1);
    }
  }

  /** The same with a bound of its own for each term. */
  lemma {:induction false} SumErrorSum<T>(xs: seq<T>, f: T -> real, g: T -> real, b: T -> real)
    requires forall x :: x in xs ==> Abs(f(x) - g(x)) <= b(x)
    ensures Abs(Sum(xs, f) - Sum(xs, g)) <= Sum(xs, b)
  {
    if xs != [] {
      SumErrorSum(xs[..|xs| - 1], f, g, b);
      assert xs[|xs| - 1] in xs;
    }
  }
}
