/** Sums over sequences, and that they do not depend on the order. */
module Sums {

  function Sum<T>(xs: seq<T>, f: T -> int): int {
    if |xs| == 0 then 0 else f(xs[0]) + Sum(xs[1..], f)
  }

  function SumReal<T>(xs: seq<T>, f: T -> real): real {
    if |xs| == 0 then 0.0 else f(xs[0]) + SumReal(xs[1..], f)
  }

  lemma {:induction false} SumSplit<T>(xs: seq<T>, f: T -> int, k: nat)
    requires k < |xs|
    ensures Sum(xs, f) == f(xs[k]) + Sum(xs[..k] + xs[k + 1..], f)
  {
    if k > 0 {
      SumSplit(xs[1..], f, k - 1);
      assert (xs[..k] + xs[k + 1..])[1..] == xs[1..][..k - 1] + xs[1..][k..];
    } else {
      assert xs[..0] + xs[1..] == xs[1..];
    }
  }

  lemma {:induction false} SumRealSplit<T>(xs: seq<T>, f: T -> real, k: nat)
    requires k < |xs|
    ensures SumReal(xs, f) == f(xs[k]) + SumReal(xs[..k] + xs[k + 1..], f)
  {
    if k > 0 {
      SumRealSplit(xs[1..], f, k - 1);
      assert (xs[..k] + xs[k + 1..])[1..] == xs[1..][..k - 1] + xs[1..][k..];
    } else {
      assert xs[..0] + xs[1..] == xs[1..];
    }
  }

  lemma RemoveOne<T>(xs: seq<T>, ys: seq<T>) returns (k: nat)
    requires |xs| > 0 && multiset(xs) == multiset(ys)
    ensures k < |ys| && ys[k] == xs[0] && multiset(xs[1..]) == multiset(ys[..k] + ys[k + 1..])
  {
    assert xs == [xs[0]] + xs[1..];
    assert xs[0] in multiset(ys);
    k :| 0 <= k < |ys| && ys[k] == xs[0];
    assert ys == ys[..k] + [ys[k]] + ys[k + 1..];
    assert multiset(ys) == multiset(ys[..k]) + multiset{ys[k]} + multiset(ys[k + 1..]);
    assert multiset(ys[..k] + ys[k + 1..]) == multiset(ys) - multiset{ys[k]};
    assert multiset(xs[1..]) == multiset(xs) - multiset{xs[0]};
  }

  lemma {:induction false} SumPermuted<T>(xs: seq<T>, ys: seq<T>, f: T -> int)
    requires multiset(xs) == multiset(ys)
    ensures Sum(xs, f) == Sum(ys, f)
    decreases |xs|
  {
    if |xs| == 0 {
      assert |multiset(ys)| == 0;
    } else {
      var k := RemoveOne(xs, ys);
      SumPermuted(xs[1..], ys[..k] + ys[k + 1..], f);
      SumSplit(ys, f, k);
    }
  }

  lemma {:induction false} SumRealPermuted<T>(xs: seq<T>, ys: seq<T>, f: T -> real)
    requires multiset(xs) == multiset(ys)
    ensures SumReal(xs, f) == SumReal(ys, f)
    decreases |xs|
  {
    if |xs| == 0 {
      assert |multiset(ys)| == 0;
    } else {
      var k := RemoveOne(xs, ys);
      SumRealPermuted(xs[1..], ys[..k] + ys[k + 1..], f);
      SumRealSplit(ys, f, k);
    }
  }

  lemma {:induction false} SumJoin<T>(a: seq<T>, b: seq<T>, f: T -> int)
    ensures Sum(a + b, f) == Sum(a, f) + Sum(b, f)
  {
    if |a| == 0 {
      assert a + b == b;
    } else {
      SumJoin(a[1..], b, f);
      assert (a + b)[1..] == a[1..] + b;
    }
  }
}
