/**
 * Sums, means, minima and maxima over lists of values, and JavaScript's
 * `Math.round`, over exact reals.
 */
module Numeric {

  function Min(a: real, b: real): real { if a <= b then a else b }

  function Max(a: real, b: real): real { if a >= b then a else b }

  /** `s.reduce((a, b) => a + b)`, folded from the left as JavaScript does. */
  function Sum(s: seq<real>): real
  {
    if s == [] then 0.0 else Sum(s[..|s| - 1]) + s[|s| - 1]
  }

  /** Extending a prefix by one element adds that element to the sum. */
  lemma SumPrefix(s: seq<real>, i: nat)
    requires i < |s|
    ensures Sum(s[..i + 1]) == Sum(s[..i]) + s[i]
  {
    assert s[..i + 1][..i] == s[..i];
  }

  /** The arithmetic mean `sum / length`. */
  function Mean(s: seq<real>): real
    requires s != []
  {
    Sum(s) / (|s| as real)
  }

  /** `Math.min(...s)` for a non-empty list. */
  function SeqMin(s: seq<real>): (r: real)
    requires s != []
    ensures r in s
    ensures forall i :: 0 <= i < |s| ==> r <= s[i]
  {
    if |s| == 1 then s[0] else Min(SeqMin(s[..|s| - 1]), s[|s| - 1])
  }

  /** `Math.max(...s)` for a non-empty list. */
  function SeqMax(s: seq<real>): (r: real)
    requires s != []
    ensures r in s
    ensures forall i :: 0 <= i < |s| ==> s[i] <= r
  {
    if |s| == 1 then s[0] else Max(SeqMax(s[..|s| - 1]), s[|s| - 1])
  }

  /** Every finite non-empty set of reals has a least and a greatest element. */
  lemma {:induction false} HasExtremes(s: set<real>)
    requires s != {}
    ensures exists m :: m in s && forall y :: y in s ==> m <= y
    ensures exists m :: m in s && forall y :: y in s ==> y <= m
    decreases |s|
  {
    if forall y :: y !in s {
      assert false;
    }
    var x :| x in s;
    if s == {x} {
      assert forall y :: y in s ==> x <= y && y <= x;
    } else {
      var rest := s - {x};
      HasExtremes(rest);
      var lo :| lo in rest && forall y :: y in rest ==> lo <= y;
      var hi :| hi in rest && forall y :: y in rest ==> y <= hi;
      var m := Min(x, lo);
      var n := Max(x, hi);
      assert forall y :: y in s ==> y == x || y in rest;
      assert m in s && forall y :: y in s ==> m <= y;
      assert n in s && forall y :: y in s ==> y <= n;
    }
  }

  /** `Math.min(...values)` for a non-empty collection of values. */
  function SetMin(s: set<real>): (m: real)
    requires s != {}
    ensures m in s && forall y :: y in s ==> m <= y
  {
    HasExtremes(s);
    var m :| m in s && forall y :: y in s ==> m <= y;
    m
  }

  /** `Math.max(...values)` for a non-empty collection of values. */
  function SetMax(s: set<real>): (m: real)
    requires s != {}
    ensures m in s && forall y :: y in s ==> y <= m
  {
    HasExtremes(s);
    var m :| m in s && forall y :: y in s ==> y <= m;
    m
  }

  /** A sum of values lying in `[lo, hi]` lies in `[|s|·lo, |s|·hi]`. */
  lemma {:induction false} SumBounds(s: seq<real>, lo: real, hi: real)
    requires forall i :: 0 <= i < |s| ==> lo <= s[i] <= hi
    ensures (|s| as real) * lo <= Sum(s) <= (|s| as real) * hi
  {
    if s != [] {
      var n := |s| - 1;
      SumBounds(s[..n], lo, hi);
      assert (|s| as real) * lo == (n as real) * lo + lo;
      assert (|s| as real) * hi == (n as real) * hi + hi;
    }
  }

  /** The mean of a list lies between its smallest and its largest element. */
  lemma MeanBounds(s: seq<real>)
    requires s != []
    ensures SeqMin(s) <= Mean(s) <= SeqMax(s)
  {
    var n := |s| as real;
    SumBounds(s, SeqMin(s), SeqMax(s));
    DivideBounds(Sum(s), n, SeqMin(s), SeqMax(s));
  }

  /** The mean of a non-empty list lies within any bounds of its elements. */
  lemma MeanBetween(s: seq<real>, lo: real, hi: real)
    requires s != [] && forall i :: 0 <= i < |s| ==> lo <= s[i] <= hi
    ensures lo <= Mean(s) <= hi
  {
    SumBounds(s, lo, hi);
    DivideBounds(Sum(s), |s| as real, lo, hi);
  }

  lemma DivMonotone(x: real, y: real, z: real)
    requires x <= y && z > 0.0
    ensures x / z <= y / z
  {
    assert y / z - x / z == (y - x) / z;
  }

  lemma MulMonotone(x: real, y: real, k: real)
    requires x <= y && k >= 0.0
    ensures x * k <= y * k
  {
    assert y * k - x * k == (y - x) * k;
  }

  lemma MulAntitone(x: real, y: real, k: real)
    requires x <= y && k <= 0.0
    ensures x * k >= y * k
  {
    assert x * k - y * k == (y - x) * -k;
  }

  lemma DivNonneg(x: real, z: real)
    requires x >= 0.0 && z > 0.0
    ensures x / z >= 0.0
  {
  }

  lemma MulSign(x: real, k: real)
    requires x >= 0.0
    ensures k >= 0.0 ==> x * k >= 0.0
    ensures k <= 0.0 ==> x * k <= 0.0
  {
  }

  lemma DivSub(x: real, y: real, z: real)
    requires z != 0.0
    ensures x / z - y / z == (x - y) / z
  {
  }

  lemma MulSub(x: real, y: real, k: real)
    ensures x * k - y * k == (x - y) * k
  {
  }

  lemma DivSelf(d: real)
    requires d != 0.0
    ensures d / d == 1.0
  {
  }

  lemma DivideBounds(total: real, n: real, lo: real, hi: real)
    requires n > 0.0 && n * lo <= total <= n * hi
    ensures lo <= total / n <= hi
  {
    assert total / n * n == total;
  }

  /** The mean of a list whose elements all equal `c` is exactly `c`. */
  lemma MeanOfConstant(s: seq<real>, c: real)
    requires s != []
    requires forall i :: 0 <= i < |s| ==> s[i] == c
    ensures Mean(s) == c
  {
    SumBounds(s, c, c);
    DivideBounds(Sum(s), |s| as real, c, c);
  }

  /** `Math.round(x)`: the nearest integer, halves rounded up. */
  function Round(x: real): (r: int)
    ensures x - 0.5 < r as real <= x + 0.5
  {
    (x + 0.5).Floor
  }

  lemma MulLess(a: int, b: int, c: int)
    requires a < b && c > 0
    ensures a * c < b * c
  {
    assert b * c - a * c == (b - a) * c;
  }

  lemma MulLessEq(a: int, b: int, c: int)
    requires a <= b && c >= 0
    ensures a * c <= b * c
  {
    assert b * c - a * c == (b - a) * c;
  }

  /** Quotient and remainder are the only pair with `x == q·d + r` and `0 <= r < d`. */
  lemma DivModUnique(x: int, d: int, q: int, r: int)
    requires d > 0 && 0 <= r < d && x == q * d + r
    ensures x / d == q && x % d == r
  {
    var q', r' := x / d, x % d;
    assert x == q' * d + r';
    assert (q' + 1) * d == q' * d + d;
    assert (q + 1) * d == q * d + d;
    if q' < q {
      MulLessEq(q' + 1, q, d);
      assert false;
    } else if q < q' {
      MulLessEq(q + 1, q', d);
      assert false;
    }
  }
}
