/**
 Decimal rounding as the checklist uses it: `round(x, 1)` for the compliance
 percentage and `round(x, 2)` for seal sides and widths. Values are exact
 rationals. Rounding to n decimals is rounding to the nearest multiple of
 1/scale with scale = 10^n; an exact tie goes to the even multiple, as
 Python's `round` does.
 */
module Rounding {

  /** The scale of `round(x, 1)`. */
  const OneDecimal: real := 10.0

  /** The scale of `round(x, 2)`. */
  const TwoDecimals: real := 100.0

  /** `y` is a whole number. */
  predicate Whole(y: real) {
    y.Floor as real == y
  }

  /** `x` is a multiple of 1/scale, i.e. has no more decimals than the scale keeps. */
  predicate OnGrid(x: real, scale: real) {
    Whole(x * scale)
  }

  /** `r` is an even multiple of 1/scale: its last kept digit is even. */
  predicate EvenOnGrid(r: real, scale: real) {
    (r * scale).Floor % 2 == 0
  }

  /**
   `r` is `x` rounded to the grid of 1/scale: a grid point at most half a
   unit away, and the even one when `x` lies exactly halfway.
   */
  predicate IsRounding(x: real, r: real, scale: real)
    requires scale >= 1.0
  {
    && OnGrid(r, scale)
    && x - 0.5 / scale <= r <= x + 0.5 / scale
    && ((r == x - 0.5 / scale || r == x + 0.5 / scale) ==> EvenOnGrid(r, scale))
  }

  /** The nearest whole number to `a`, the even one on a tie. */
  function RoundHalfEven(a: real): (k: int)
    ensures a - 0.5 <= k as real <= a + 0.5
    ensures (k as real == a - 0.5 || k as real == a + 0.5) ==> k % 2 == 0
  {
    var f := a.Floor;
    var frac := a - f as real;
    if frac < 0.5 then f
    else if frac > 0.5 then f + 1
    else if f % 2 == 0 then f
    else f + 1
  }

  /** Rounds `x` to the nearest multiple of 1/scale, half to even. */
  function RoundTo(x: real, scale: real): (r: real)
    requires scale >= 1.0
    ensures IsRounding(x, r, scale)
  {
    var k := RoundHalfEven(x * scale);
    GridPointFacts(x, scale, k);
    k as real / scale
  }

  /** The grid point k / scale, with k the rounding of x * scale, is the rounding of x. */
  lemma GridPointFacts(x: real, scale: real, k: int)
    requires scale >= 1.0
    requires x * scale - 0.5 <= k as real <= x * scale + 0.5
    requires (k as real == x * scale - 0.5 || k as real == x * scale + 0.5) ==> k % 2 == 0
    ensures IsRounding(x, k as real / scale, scale)
  {
    var q := k as real / scale;
    assert q * scale == k as real;
    assert Whole(q * scale);
    assert (x - 0.5 / scale) * scale == x * scale - 0.5;
    assert (x + 0.5 / scale) * scale == x * scale + 0.5;
    assert x - 0.5 / scale <= q by {
      assert (x - 0.5 / scale) * scale <= q * scale;
    }
    assert q <= x + 0.5 / scale by {
      assert q * scale <= (x + 0.5 / scale) * scale;
    }
    if q == x - 0.5 / scale || q == x + 0.5 / scale {
      assert k as real == x * scale - 0.5 || k as real == x * scale + 0.5;
      assert (q * scale).Floor == k;
    }
  }

  /** There is only one rounding of a value: the contract of RoundTo determines its result. */
  lemma RoundingIsUnique(x: real, r1: real, r2: real, scale: real)
    requires scale >= 1.0
    requires IsRounding(x, r1, scale) && IsRounding(x, r2, scale)
    ensures r1 == r2
  {
    var a := x * scale;
    var y1 := r1 * scale;
    var y2 := r2 * scale;
    assert Whole(y1) && Whole(y2);
    var k1 := y1.Floor;
    var k2 := y2.Floor;
    ScaleBounds(x, r1, scale);
    ScaleBounds(x, r2, scale);
    if k1 != k2 {
      assert false;
    }
    assert y1 == y2;
    assert y1 / scale == r1 && y2 / scale == r2;
  }

  /** Scaling a rounding: r * scale lies within half of x * scale, and meets its ends exactly when r meets x's. */
  lemma ScaleBounds(x: real, r: real, scale: real)
    requires scale >= 1.0
    requires x - 0.5 / scale <= r <= x + 0.5 / scale
    ensures x * scale - 0.5 <= r * scale <= x * scale + 0.5
    ensures r * scale == x * scale - 0.5 <==> r == x - 0.5 / scale
    ensures r * scale == x * scale + 0.5 <==> r == x + 0.5 / scale
  {
    var lo := x - 0.5 / scale;
    var hi := x + 0.5 / scale;
    assert lo * scale == x * scale - 0.5;
    assert hi * scale == x * scale + 0.5;
    ScaleMonotone(lo, r, scale);
    ScaleMonotone(r, hi, scale);
    if r * scale == lo * scale {
      CancelScale(r, lo, scale);
    }
    if r * scale == hi * scale {
      CancelScale(r, hi, scale);
    }
  }

  lemma CancelScale(a: real, b: real, s: real)
    requires s > 0.0 && a * s == b * s
    ensures a == b
  {
    assert (a - b) * s == 0.0;
  }

  lemma MulDivSwap(p: real, w: real, c: real)
    requires w > 0.0
    ensures (p / w) * c == (c * p) / w
  {
  }

  /** Rounding to whole numbers never reverses the order of two values. */
  lemma RoundHalfEvenMonotone(a: real, b: real)
    requires a <= b
    ensures RoundHalfEven(a) <= RoundHalfEven(b)
  {
    var fa := a.Floor;
    var fb := b.Floor;
    assert fa <= fb;
    if fa == fb {
      assert a - fa as real <= b - fb as real;
    }
  }

  /** Rounding never reverses the order of two values. */
  lemma RoundMonotone(x: real, y: real, scale: real)
    requires scale >= 1.0
    requires x <= y
    ensures RoundTo(x, scale) <= RoundTo(y, scale)
  {
    var a := x * scale;
    var b := y * scale;
    ScaleMonotone(x, y, scale);
    assert a <= b;
    RoundHalfEvenMonotone(a, b);
    UnscaleMonotone(RoundHalfEven(a) as real, RoundHalfEven(b) as real, scale);
  }

  lemma ScaleMonotone(x: real, y: real, s: real)
    requires x <= y && s > 0.0
    ensures x * s <= y * s
  {
    assert y * s - x * s == (y - x) * s;
  }

  lemma UnscaleMonotone(x: real, y: real, s: real)
    requires x <= y && s > 0.0
    ensures x / s <= y / s
  {
    assert y / s - x / s == (y - x) / s;
  }

  /** A value that already lies on the grid is left unchanged. */
  lemma RoundKeepsGridPoints(x: real, scale: real)
    requires scale >= 1.0
    requires OnGrid(x, scale)
    ensures RoundTo(x, scale) == x
  {
    var y := x * scale;
    assert Whole(y);
    assert RoundHalfEven(y) as real == y;
    assert y / scale == x;
  }

  /** A value between two grid points rounds to a value between them. */
  lemma RoundStaysBetween(x: real, lo: real, hi: real, scale: real)
    requires scale >= 1.0
    requires OnGrid(lo, scale) && OnGrid(hi, scale)
    requires lo <= x <= hi
    ensures lo <= RoundTo(x, scale) <= hi
  {
    RoundMonotone(lo, x, scale);
    RoundMonotone(x, hi, scale);
    RoundKeepsGridPoints(lo, scale);
    RoundKeepsGridPoints(hi, scale);
  }
}
