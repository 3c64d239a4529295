/**
 * The scrollbar arithmetic shared by the three log views
 * (`LogWindow._draw_scrollbar`, `LogSubWindow._draw_scrollbar`,
 * `SlackScreen._draw_scrollbar`): a track of `height` rows starting at row 1,
 * and, when the log holds more lines than fit, a thumb whose length shrinks
 * with the log and whose start follows the top line.
 *
 * The source computes with floats: `h * (h / L)`, floored and raised to at
 * least 3, then the start `round(1 + top / (overflow / (h - thumb)))` with
 * Python's round-half-to-even. Here the same quantities are computed exactly:
 * the start is the rational `(overflow + top * (h - thumb)) / overflow`
 * rounded half to even.
 */
module Scrollbar {

  /** What a draw leaves in the track: nothing, a thumb, or a ZeroDivisionError. */
  datatype Bar = Blank | Thumb(start: int, length: int) | ZeroDivision

  function Abs(x: int): (a: int)
    ensures a >= 0 && (a == x || a == -x)
  {
    if x < 0 then -x else x
  }

  /**
   * `round(n / d)` for a positive divisor: the nearest integer, and the even
   * one of two equally near.
   */
  function RoundHalfEven(n: int, d: int): (y: int)
    requires d > 0
    ensures 2 * Abs(n - d * y) <= d
    ensures 2 * Abs(n - d * y) == d ==> y % 2 == 0
  {
    var q, r := n / d, n % d;
    assert n == d * q + r && 0 <= r < d;
    assert d * (q + 1) == d * q + d;
    if 2 * r < d then q
    else if 2 * r > d then q + 1
    else if q % 2 == 0 then q
    else q + 1
  }

  /** The rounding is the only integer that is nearest (ties to even). */
  lemma RoundHalfEvenUnique(n: int, d: int, y: int)
    requires d > 0
    requires 2 * Abs(n - d * y) < d || (2 * Abs(n - d * y) == d && y % 2 == 0)
    ensures y == RoundHalfEven(n, d)
  {
    var z := RoundHalfEven(n, d);
    var k := z - y;
    var e, f := n - d * y, n - d * z;
    assert d * k == e - f;
    assert -d <= e - f <= d;
    MulAtLeast(d, k, 2);
    MulAtLeast(d, -k, 2);
    assert d * (-k) == -(d * k);
    assert -1 <= k <= 1;
    assert k == 1 ==> 2 * e == d && 2 * f == -d;
    assert k == -1 ==> 2 * e == -d && 2 * f == d;
  }

  /** A positive factor keeps a lower bound. */
  lemma MulAtLeast(d: int, k: int, m: int)
    requires d > 0
    ensures k >= m ==> d * k >= d * m
  {
    assert d * k - d * m == d * (k - m);
  }

  function Max(a: int, b: int): int
  {
    if a < b then b else a
  }

  /** The thumb length for a track of h rows and a log of total lines. */
  function ThumbLength(h: int, total: nat): (n: int)
    requires total > 0
    ensures n >= 3
  {
    Max(h * h / total, 3)
  }

  /**
   * The scrollbar a draw leaves: blank when everything fits; otherwise a
   * thumb, or ZeroDivisionError where the source divides by zero (a log of
   * zero lines in a track of negative height, or a thumb as long as the
   * track).
   */
  function BarOf(h: int, total: nat, top: int): (b: Bar)
    ensures total <= h <==> b.Blank?
  {
    if total <= h then Blank
    else if total == 0 then ZeroDivision
    else
      var len := ThumbLength(h, total);
      var free := h - len;
      if free == 0 then ZeroDivision
      else
        var overflow := total - h;
        Thumb(RoundHalfEven(overflow + top * free, overflow), len)
  }

  /** In a track of at least 4 rows the thumb is at least 3 and shorter than the track. */
  lemma ThumbShorterThanTrack(h: int, total: int)
    requires 4 <= h < total
    ensures 3 <= ThumbLength(h, total) < h
  {
    assert h * h < h * total;
    DivBelow(h * h, total, h);
  }

  lemma DivBelow(a: int, b: int, c: int)
    requires 0 <= a && 0 < b && a < c * b
    ensures a / b < c
  {
    assert b * (a / b) <= a;
    MulAtLeast(b, a / b, c);
  }

  /**
   * For a track of at least 4 rows and a top line between the first and the
   * last possible, the thumb lies inside the track: it starts at row 1 or
   * below and ends at row h or above.
   */
  lemma ThumbInTrack(h: int, total: nat, top: int)
    requires 4 <= h < total && 0 <= top <= total - h
    ensures var b := BarOf(h, total, top);
      b.Thumb? && 1 <= b.start && b.start + b.length - 1 <= h
  {
    ThumbShorterThanTrack(h, total);
    StartWithin(total - h, h - ThumbLength(h, total), top);
  }

  /** The rounded start of a thumb with `free` spare rows lies in rows 1 to 1 + free. */
  lemma StartWithin(overflow: int, free: int, top: int)
    requires overflow > 0 && free >= 0 && 0 <= top <= overflow
    ensures 1 <= RoundHalfEven(overflow + top * free, overflow) <= 1 + free
  {
    var n := overflow + top * free;
    MulBetween(free, top, overflow);
    assert overflow * (1 + free) == overflow + free * overflow;
    RoundedWithin(n, overflow, RoundHalfEven(n, overflow), 1, 1 + free);
  }

  /** Scaling keeps 0 <= x <= y in order. */
  lemma MulBetween(d: int, x: int, y: int)
    requires d >= 0 && 0 <= x <= y
    ensures 0 <= x * d <= d * y
  {
    assert d * y - x * d == d * (y - x);
  }

  /** A value between lo and hi (times the divisor) rounds to between lo and hi. */
  lemma RoundedWithin(n: int, d: int, y: int, lo: int, hi: int)
    requires d > 0 && 2 * Abs(n - d * y) <= d
    requires d * lo <= n <= d * hi
    ensures lo <= y <= hi
  {
    MulAtLeast(d, lo, y + 1);
    MulAtLeast(d, y, hi + 1);
    assert d * (y + 1) == d * y + d && d * (hi + 1) == d * hi + d;
  }

  /** At the top of the log the thumb starts at row 1; at the bottom it ends at row h. */
  lemma ThumbAtEnds(h: int, total: int)
    requires 4 <= h < total
    ensures BarOf(h, total, 0) == Thumb(1, ThumbLength(h, total))
    ensures BarOf(h, total, total - h) == Thumb(1 + h - ThumbLength(h, total), ThumbLength(h, total))
  {
    ThumbShorterThanTrack(h, total);
    var len := ThumbLength(h, total);
    var overflow := total - h;
    RoundHalfEvenUnique(overflow, overflow, 1);
    RoundHalfEvenUnique(overflow + overflow * (h - len), overflow, 1 + h - len);
  }

  /** The longer the log, the shorter (or equal) the thumb. */
  lemma ThumbShrinks(h: int, total: int, total': int)
    requires 0 < total <= total'
    ensures ThumbLength(h, total') <= ThumbLength(h, total)
  {
    var a := h * h;
    var q := a / total';
    MulBetween(q, total, total');
    assert total' * q <= a;
    DivMonotone(a, total, q);
  }

  lemma DivMonotone(a: int, b: int, q: int)
    requires b > 0 && b * q <= a
    ensures q <= a / b
  {
    MulAtLeast(b, q, a / b + 1);
    assert b * (a / b + 1) == b * (a / b) + b > a;
  }

  /**
   * A track of exactly 3 rows holding a longer log gets a 3-row thumb, so the
   * free space it divides by is zero: drawing it raises ZeroDivisionError.
   * For every larger track it does not.
   */
  lemma ThreeRowTrackDividesByZero(h: int, total: int, top: int)
    requires 3 <= h < total
    ensures BarOf(h, total, top).ZeroDivision? <==> h == 3
  {
    if h == 3 {
      assert 9 / total < 3 by { DivBelow(9, total, 3); }
    } else {
      ThumbShorterThanTrack(h, total);
    }
  }

  /**
   * The scrollbar as evidently intended: a thumb that fills the whole track
   * starts at row 1 instead of dividing by zero.
   */
  function BarOfFixed(h: int, total: nat, top: int): (b: Bar)
  {
    if total <= h then Blank
    else if total == 0 then ZeroDivision
    else
      var len := ThumbLength(h, total);
      var free := h - len;
      if free == 0 then Thumb(1, len)
      else
        var overflow := total - h;
        Thumb(RoundHalfEven(overflow + top * free, overflow), len)
  }

  /** With the fix every track of at least 3 rows gets a thumb inside the track. */
  lemma FixedThumbInTrack(h: int, total: int, top: int)
    requires 3 <= h < total && 0 <= top <= total - h
    ensures var b := BarOfFixed(h, total, top);
      b.Thumb? && 1 <= b.start && b.start + b.length - 1 <= h
    ensures h > 3 ==> BarOfFixed(h, total, top) == BarOf(h, total, top)
  {
    if h == 3 {
      assert 9 / total < 3 by { DivBelow(9, total, 3); }
    } else {
      ThumbInTrack(h, total, top);
    }
  }

  /** The fix changes nothing on any draw the source completes. */
  lemma FixedAgreesUnlessRaised(h: int, total: nat, top: int)
    ensures !BarOf(h, total, top).ZeroDivision? ==> BarOfFixed(h, total, top) == BarOf(h, total, top)
    ensures BarOf(h, total, top).ZeroDivision? && total > 0 ==> BarOfFixed(h, total, top) == Thumb(1, ThumbLength(h, total))
  {
  }
}
