/**
 * Scores and confidences are held as integers in hundredths (3.0 is 300, 0.65 is 65).
 * Python's `round(x, 2)` of a quotient becomes rounding a rational to the nearest integer,
 * halves upwards.
 */
module Numbers {

  /** `a / d` rounded to the nearest integer, halves upwards. */
  function RoundDiv(a: int, d: int): int
    requires d > 0
  {
    (2 * a + d) / (2 * d)
  }

  lemma MulMonotone(d: int, a: int, b: int)
    requires d >= 0 && a <= b
    ensures d * a <= d * b
  {
    var e := b - a;
    assert d * b == d * a + d * e;
  }

  /** The quotient is determined by any decomposition with a remainder in range. */
  lemma DivUnique(n: int, d: int, q: int, r: int)
    requires d > 0 && n == q * d + r && 0 <= r < d
    ensures n / d == q
  {
    var q', r' := n / d, n % d;
    assert n == q' * d + r';
    if q' < q {
      MulMonotone(d, q' + 1, q);
      assert false;
    } else if q < q' {
      MulMonotone(d, q + 1, q');
      assert false;
    }
  }

  lemma DivMonotone(x: int, y: int, d: int)
    requires d > 0 && x <= y
    ensures x / d <= y / d
  {
    var qx, qy := x / d, y / d;
    assert x == qx * d + x % d;
    assert y == qy * d + y % d;
    if qy < qx {
      MulMonotone(d, qy + 1, qx);
      assert false;
    }
  }

  /** Rounding stays within any pair of integer bounds of the exact quotient. */
  lemma RoundDivWithin(a: int, d: int, lo: int, hi: int)
    requires d > 0 && lo * d <= a <= hi * d
    ensures lo <= RoundDiv(a, d) <= hi
  {
    var dd := 2 * d;
    Twice(lo, d);
    Twice(hi, d);
    DivUnique(lo * dd + d, dd, lo, d);
    DivUnique(hi * dd + d, dd, hi, d);
    DivMonotone(lo * dd + d, 2 * a + d, dd);
    DivMonotone(2 * a + d, hi * dd + d, dd);
  }

  lemma Twice(x: int, d: int)
    ensures x * (2 * d) == 2 * (x * d)
  {
  }

  /** An exact quotient is returned as it is. */
  lemma RoundDivExact(a: int, d: int)
    requires d > 0 && a % d == 0
    ensures RoundDiv(a, d) == a / d
  {
    var q := a / d;
    assert a == q * d;
    DivUnique(2 * a + d, 2 * d, q, d);
  }

  lemma RoundDivMonotone(a: int, b: int, d: int)
    requires d > 0 && a <= b
    ensures RoundDiv(a, d) <= RoundDiv(b, d)
  {
    DivMonotone(2 * a + d, 2 * b + d, 2 * d);
  }

  function Max(a: int, b: int): int {
    if a >= b then a else b
  }

  function Sum(xs: seq<int>): int
    decreases |xs|
  {
    if |xs| == 0 then 0 else Sum(xs[..|xs| - 1]) + xs[|xs| - 1]
  }

  /** `round(sum(xs) / len(xs), 2)` in hundredths. */
  function Mean(xs: seq<int>): int
    requires |xs| > 0
  {
    RoundDiv(Sum(xs), |xs|)
  }

  lemma {:induction false} SumWithin(xs: seq<int>, lo: int, hi: int)
    requires forall k :: 0 <= k < |xs| ==> lo <= xs[k] <= hi
    ensures lo * |xs| <= Sum(xs) <= hi * |xs|
    decreases |xs|
  {
    if |xs| > 0 {
      SumWithin(xs[..|xs| - 1], lo, hi);
    }
  }

  /** The rounded mean lies between the smallest and the largest bound of its terms. */
  lemma MeanWithin(xs: seq<int>, lo: int, hi: int)
    requires |xs| > 0
    requires forall k :: 0 <= k < |xs| ==> lo <= xs[k] <= hi
    ensures lo <= Mean(xs) <= hi
  {
    SumWithin(xs, lo, hi);
    RoundDivWithin(Sum(xs), |xs|, lo, hi);
  }

  lemma {:induction false} SumPointwise(xs: seq<int>, ys: seq<int>)
    requires |xs| == |ys|
    requires forall k :: 0 <= k < |xs| ==> xs[k] <= ys[k]
    ensures Sum(xs) <= Sum(ys)
    decreases |xs|
  {
    if |xs| > 0 {
      SumPointwise(xs[..|xs| - 1], ys[..|ys| - 1]);
    }
  }

  /** Lowering terms never raises the rounded mean. */
  lemma MeanPointwise(xs: seq<int>, ys: seq<int>)
    requires |xs| == |ys| > 0
    requires forall k :: 0 <= k < |xs| ==> xs[k] <= ys[k]
    ensures Mean(xs) <= Mean(ys)
  {
    SumPointwise(xs, ys);
    RoundDivMonotone(Sum(xs), Sum(ys), |xs|);
  }
}
