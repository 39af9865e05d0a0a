/**
 * What intersectSpan (js/utils.js:101-138) computes: on separated lists it
 * is the total length of the pairwise overlaps, a reference definition that
 * makes its symmetry and its bounds evident.
 */
module IntersectFacts {
  import opened Intervals

  /** Length of the common part of two intervals, zero when they are apart. */
  function Overlap(x: Interval, y: Interval): int
  {
    Max(0, Min(x.hi, y.hi) - Max(x.lo, y.lo))
  }

  /** Overlap of x with every interval of b, added up. */
  function RowSum(x: Interval, b: seq<Interval>): int
  {
    if |b| == 0 then 0 else Overlap(x, b[0]) + RowSum(x, b[1..])
  }

  /** Overlap of every pair (a[i], b[j]), added up. */
  function SumOverlap(a: seq<Interval>, b: seq<Interval>): int
  {
    if |a| == 0 then 0 else RowSum(a[0], b) + SumOverlap(a[1..], b)
  }

  lemma {:induction false} SumOverlapEmpty(a: seq<Interval>)
    ensures SumOverlap(a, []) == 0
  {
    if |a| > 0 {
      SumOverlapEmpty(a[1..]);
    }
  }

  /** An interval ending before a separated list starts overlaps none of it. */
  lemma {:induction false} RowZero(x: Interval, b: seq<Interval>)
    requires Separated(b) && |b| > 0 && x.hi <= b[0].lo
    ensures RowSum(x, b) == 0
  {
    if |b| > 1 {
      assert b[0].hi < b[1].lo;
      SeparatedTail(b, 1);
      RowZero(x, b[1..]);
    }
  }

  /** Adding up by columns instead of rows. */
  lemma {:induction false} ColumnSplit(a: seq<Interval>, b: seq<Interval>)
    requires |b| > 0
    ensures SumOverlap(a, b) == RowSum(b[0], a) + SumOverlap(a, b[1..])
  {
    if |a| > 0 {
      ColumnSplit(a[1..], b);
      assert Overlap(a[0], b[0]) == Overlap(b[0], a[0]);
    }
  }

  lemma {:induction false} SumOverlapSymmetric(a: seq<Interval>, b: seq<Interval>)
    ensures SumOverlap(a, b) == SumOverlap(b, a)
  {
    if |a| == 0 {
      SumOverlapEmpty(b);
    } else {
      SumOverlapSymmetric(a[1..], b);
      ColumnSplit(b, a);
    }
  }

  /**
   * On separated lists the sweep adds up exactly the pairwise overlaps: each
   * step accounts for one row or one column whose other overlaps are zero.
   */
  lemma {:induction false} IntersectIsSum(a: seq<Interval>, b: seq<Interval>)
    requires Separated(a) && Separated(b)
    ensures IntersectLength(a, b) == SumOverlap(a, b)
    decreases |a| + |b|
  {
    if |a| == 0 {
    } else if |b| == 0 {
      SumOverlapEmpty(a);
    } else {
      var x, y := a[0], b[0];
      SeparatedTail(a, 1);
      SeparatedTail(b, 1);
      if (x.lo < y.lo && y.lo < x.hi && y.hi <= x.hi) || (y.lo <= x.lo && x.lo < y.hi && y.hi < x.hi) || y.hi <= x.lo {
        // the column of y is settled
        IntersectIsSum(a, b[1..]);
        ColumnSplit(a, b);
        if |a| > 1 {
          assert x.hi < a[1].lo;
          RowZero(y, a[1..]);
        }
        if y.hi <= x.lo {
          RowZero(y, a);
        }
      } else {
        // the row of x is settled
        IntersectIsSum(a[1..], b);
        assert SumOverlap(a, b) == RowSum(x, b) + SumOverlap(a[1..], b);
        assert RowSum(x, b) == Overlap(x, y) + RowSum(x, b[1..]);
        if |b| > 1 {
          assert y.hi < b[1].lo;
          RowZero(x, b[1..]);
        }
        if x.hi <= y.lo {
          RowZero(x, b);
        }
      }
    }
  }

  lemma {:induction false} RowNonNegative(x: Interval, b: seq<Interval>)
    ensures RowSum(x, b) >= 0
  {
    if |b| > 0 {
      RowNonNegative(x, b[1..]);
    }
  }

  /** The overlaps of x with a separated list add up to at most the part of x from the list's start on. */
  lemma {:induction false} RowBound(x: Interval, b: seq<Interval>)
    requires Separated(b) && |b| > 0
    ensures RowSum(x, b) <= Max(0, x.hi - Max(x.lo, b[0].lo))
  {
    if |b| > 1 {
      SeparatedTail(b, 1);
      assert b[0].hi < b[1].lo;
      RowBound(x, b[1..]);
    }
  }

  lemma {:induction false} SumBounds(a: seq<Interval>, b: seq<Interval>)
    requires Separated(a) && Separated(b)
    ensures 0 <= SumOverlap(a, b) <= Span(a)
  {
    if |a| > 0 {
      SeparatedTail(a, 1);
      SumBounds(a[1..], b);
      RowNonNegative(a[0], b);
      if |b| > 0 {
        RowBound(a[0], b);
      }
    }
  }

  lemma {:induction false} SumSelf(a: seq<Interval>)
    requires Separated(a)
    ensures SumOverlap(a, a) == Span(a)
  {
    if |a| > 0 {
      SeparatedTail(a, 1);
      SumSelf(a[1..]);
      ColumnSplit(a[1..], a);
      if |a| > 1 {
        assert a[0].hi < a[1].lo;
        RowZero(a[0], a[1..]);
      }
    }
  }

  /**
   * On separated lists intersectSpan is symmetric, lies between zero and the
   * smaller of the two spans, equals the span when a list meets itself, and
   * is zero when either list is empty.
   */
  lemma IntersectProps(a: seq<Interval>, b: seq<Interval>)
    requires Separated(a) && Separated(b)
    ensures IntersectLength(a, b) == IntersectLength(b, a)
    ensures 0 <= IntersectLength(a, b) <= Min(Span(a), Span(b))
    ensures IntersectLength(a, a) == Span(a)
    ensures |a| == 0 || |b| == 0 ==> IntersectLength(a, b) == 0
  {
    IntersectIsSum(a, b);
    IntersectIsSum(b, a);
    IntersectIsSum(a, a);
    SumOverlapSymmetric(a, b);
    SumBounds(a, b);
    SumBounds(b, a);
    SumSelf(a);
  }
}
