/**
 * What subInterval (js/filters/SubPatternFilter.js:101-125, repeated in
 * js/filters/PartialPatternFilter.js:98-122) decides: on separated lists,
 * that every interval of the first lies inside one interval of the second,
 * which is the same as every point of the first being a point of the second.
 */
module ContainFacts {
  import opened Intervals
  import opened IntersectFacts

  predicate Inside(x: Interval, y: Interval)
  {
    y.lo <= x.lo && x.hi <= y.hi
  }

  /** x lies inside some interval of b. */
  predicate InSome(x: Interval, b: seq<Interval>)
  {
    exists j :: 0 <= j < |b| && Inside(x, b[j])
  }

  /** Every interval of a lies inside some interval of b. */
  predicate EachInside(a: seq<Interval>, b: seq<Interval>)
  {
    forall i :: 0 <= i < |a| ==> InSome(a[i], b)
  }

  lemma InSomeTail(x: Interval, b: seq<Interval>)
    requires |b| > 0
    ensures InSome(x, b) <==> Inside(x, b[0]) || InSome(x, b[1..])
  {
    if InSome(x, b) && !Inside(x, b[0]) {
      var j :| 0 <= j < |b| && Inside(x, b[j]);
      assert Inside(x, b[1..][j - 1]);
    }
    if InSome(x, b[1..]) {
      var j :| 0 <= j < |b| - 1 && Inside(x, b[1..][j]);
      assert Inside(x, b[j + 1]);
    }
  }

  lemma EachInsideTail(a: seq<Interval>, b: seq<Interval>)
    requires |a| > 0
    ensures EachInside(a, b) <==> InSome(a[0], b) && EachInside(a[1..], b)
  {
    if InSome(a[0], b) && EachInside(a[1..], b) {
      forall i | 0 <= i < |a| ensures InSome(a[i], b) {
        if i > 0 {
          assert a[i] == a[1..][i - 1];
        }
      }
    }
  }

  lemma {:induction false} ContainedMeaning(a: seq<Interval>, b: seq<Interval>)
    requires Separated(a) && Separated(b)
    ensures Contained(a, b) <==> EachInside(a, b)
    decreases |a| + |b|
  {
    if |a| == 0 {
    } else if |b| == 0 {
      assert !InSome(a[0], b);
    } else if a[0].lo < b[0].lo {
      forall j | 0 <= j < |b| ensures !Inside(a[0], b[j]) {
        if j > 0 {
          assert b[0].hi < b[j].lo;
        }
      }
      assert !InSome(a[0], b);
    } else if a[0].hi <= b[0].hi {
      SeparatedTail(a, 1);
      ContainedMeaning(a[1..], b);
      assert Inside(a[0], b[0]);
      EachInsideTail(a, b);
    } else {
      SeparatedTail(b, 1);
      ContainedMeaning(a, b[1..]);
      forall i | 0 <= i < |a| ensures InSome(a[i], b) <==> InSome(a[i], b[1..]) {
        if i > 0 {
          assert a[0].hi < a[i].lo;
        }
        assert !Inside(a[i], b[0]);
        InSomeTail(a[i], b);
      }
    }
  }

  /** No interval's end is a point of a separated list. */
  lemma EndNotCovered(b: seq<Interval>, j: nat)
    requires Separated(b) && j < |b|
    ensures !Covers(b, b[j].hi)
  {
    CoversIndex(b, b[j].hi);
    forall m | 0 <= m < |b| ensures !In(b[j].hi, b[m]) {
      if m < j {
        assert b[m].hi < b[j].lo;
      } else if m > j {
        assert b[j].hi < b[m].lo;
      }
    }
  }

  /** Every point of a is a point of b. */
  ghost predicate PointsWithin(a: seq<Interval>, b: seq<Interval>)
  {
    forall p :: Covers(a, p) ==> Covers(b, p)
  }

  lemma InsideFromCovered(a: seq<Interval>, b: seq<Interval>)
    requires Separated(a) && Separated(b)
    requires PointsWithin(a, b)
    ensures EachInside(a, b)
  {
    forall i | 0 <= i < |a| ensures InSome(a[i], b) {
      var x := a[i];
      CoversIndex(a, x.lo);
      assert In(x.lo, a[i]);
      CoversIndex(b, x.lo);
      var j :| 0 <= j < |b| && In(x.lo, b[j]);
      if b[j].hi < x.hi {
        assert In(b[j].hi, a[i]);
        CoversIndex(a, b[j].hi);
        EndNotCovered(b, j);
        assert false;
      }
      assert Inside(x, b[j]);
    }
  }

  lemma CoveredFromInside(a: seq<Interval>, b: seq<Interval>, p: int)
    requires EachInside(a, b) && Covers(a, p)
    ensures Covers(b, p)
  {
    CoversIndex(a, p);
    var k :| 0 <= k < |a| && In(p, a[k]);
    assert InSome(a[k], b);
    var j :| 0 <= j < |b| && Inside(a[k], b[j]);
    CoversIndex(b, p);
    assert In(p, b[j]);
  }

  /**
   * subInterval on separated lists holds exactly when every point of the
   * first list is a point of the second.
   */
  lemma ContainedIffCovered(a: seq<Interval>, b: seq<Interval>)
    requires Separated(a) && Separated(b)
    ensures Contained(a, b) <==> PointsWithin(a, b)
  {
    ContainedMeaning(a, b);
    if EachInside(a, b) {
      forall p | Covers(a, p) ensures Covers(b, p) {
        CoveredFromInside(a, b, p);
      }
    }
    if PointsWithin(a, b) {
      InsideFromCovered(a, b);
    }
  }

  /** Every separated list is contained in itself. */
  lemma ContainedReflexive(a: seq<Interval>)
    requires Separated(a)
    ensures Contained(a, a)
  {
    ContainedIffCovered(a, a);
  }

  /** Containment is transitive on separated lists. */
  lemma ContainedTransitive(a: seq<Interval>, b: seq<Interval>, c: seq<Interval>)
    requires Separated(a) && Separated(b) && Separated(c)
    requires Contained(a, b) && Contained(b, c)
    ensures Contained(a, c)
  {
    ContainedIffCovered(a, b);
    ContainedIffCovered(b, c);
    ContainedIffCovered(a, c);
  }

  /** An interval inside one interval of a separated list overlaps the list by its whole length. */
  lemma {:induction false} RowInside(x: Interval, b: seq<Interval>)
    requires Separated(b) && x.lo < x.hi && InSome(x, b)
    ensures RowSum(x, b) == Len(x)
  {
    InSomeTail(x, b);
    SeparatedTail(b, 1);
    if Inside(x, b[0]) {
      if |b| > 1 {
        assert b[0].hi < b[1].lo;
        RowZero(x, b[1..]);
      }
    } else {
      var j :| 0 <= j < |b| - 1 && Inside(x, b[1..][j]);
      assert b[0].hi < b[j + 1].lo;
      RowInside(x, b[1..]);
    }
  }

  /** When every interval of a lies inside b, the pairwise overlaps add up to all of a. */
  lemma {:induction false} SumInside(a: seq<Interval>, b: seq<Interval>)
    requires Separated(a) && Separated(b) && EachInside(a, b)
    ensures SumOverlap(a, b) == Span(a)
  {
    if |a| > 0 {
      EachInsideTail(a, b);
      SeparatedTail(a, 1);
      RowInside(a[0], b);
      SumInside(a[1..], b);
    }
  }

  /** A list contained in another meets it in its whole span. */
  lemma ContainedIntersect(a: seq<Interval>, b: seq<Interval>)
    requires Separated(a) && Separated(b) && Contained(a, b)
    ensures IntersectLength(a, b) == Span(a)
  {
    ContainedMeaning(a, b);
    SumInside(a, b);
    IntersectIsSum(a, b);
  }
}
