/**
 * The interval algebra of js/utils.js: union-merge of two interval lists,
 * coalescing ("squish") of one list, and the length of the intersection of
 * two lists, plus the containment sweep that both subsumption filters use.
 *
 * An interval [lo, hi] of the source is read as the half-open set of trace
 * indices lo <= p < hi: its length is hi - lo, which is what every span
 * computation of the source adds up.
 */
module Intervals {

  datatype Interval = Interval(lo: int, hi: int)

  function Max(x: int, y: int): int { if x < y then y else x }
  function Min(x: int, y: int): int { if x < y then x else y }

  function Len(x: Interval): int { x.hi - x.lo }

  /** Point p lies in interval x. */
  predicate In(p: int, x: Interval) { x.lo <= p < x.hi }

  /** Point p lies in some interval of s. */
  predicate Covers(s: seq<Interval>, p: int)
  {
    |s| > 0 && (In(p, s[0]) || Covers(s[1..], p))
  }

  /**
   * The shape every interval list of the engine has: every interval is
   * non-empty and each one ends strictly before the next one starts (so the
   * list is ascending, disjoint and not even touching).
   */
  predicate Separated(s: seq<Interval>)
  {
    && (forall k :: 0 <= k < |s| ==> s[k].lo < s[k].hi)
    && (forall i, j :: 0 <= i < j < |s| ==> s[i].hi < s[j].lo)
  }

  /** Sum of the interval lengths (RotateFilter.calculateSpan). */
  function Span(s: seq<Interval>): int
  {
    if |s| == 0 then 0 else Len(s[0]) + Span(s[1..])
  }

  // ---------------------------------------------------------------------
  // Basic facts about Covers, Span and Separated
  // ---------------------------------------------------------------------

  lemma {:induction false} CoversConcat(a: seq<Interval>, b: seq<Interval>, p: int)
    ensures Covers(a + b, p) <==> Covers(a, p) || Covers(b, p)
  {
    if |a| > 0 {
      assert (a + b)[0] == a[0];
      assert (a + b)[1..] == a[1..] + b;
      CoversConcat(a[1..], b, p);
    } else {
      assert a + b == b;
    }
  }

  lemma CoversSingle(x: Interval, p: int)
    ensures Covers([x], p) <==> In(p, x)
  {
    assert [x][1..] == [];
  }

  lemma {:induction false} CoversIndex(s: seq<Interval>, p: int)
    ensures Covers(s, p) <==> exists k :: 0 <= k < |s| && In(p, s[k])
  {
    if |s| > 0 {
      CoversIndex(s[1..], p);
      if Covers(s[1..], p) {
        var k :| 0 <= k < |s| - 1 && In(p, s[1..][k]);
        assert In(p, s[k + 1]);
      }
      if exists k :: 0 <= k < |s| && In(p, s[k]) {
        var k :| 0 <= k < |s| && In(p, s[k]);
        if k > 0 {
          assert In(p, s[1..][k - 1]);
        }
      }
    }
  }

  lemma {:induction false} SpanConcat(a: seq<Interval>, b: seq<Interval>)
    ensures Span(a + b) == Span(a) + Span(b)
  {
    if |a| > 0 {
      assert (a + b)[0] == a[0];
      assert (a + b)[1..] == a[1..] + b;
      SpanConcat(a[1..], b);
    } else {
      assert a + b == b;
    }
  }

  lemma SeparatedTail(s: seq<Interval>, k: nat)
    requires Separated(s) && k <= |s|
    ensures Separated(s[k..])
  {
  }

  /** Appending an interval that starts after the last one ends keeps a list separated. */
  lemma SeparatedAppend(acc: seq<Interval>, x: Interval)
    requires Separated(acc) && |acc| > 0
    requires x.lo < x.hi && acc[|acc| - 1].hi < x.lo
    ensures Separated(acc + [x])
  {
    var r := acc + [x];
    forall i, j | 0 <= i < j < |r| ensures r[i].hi < r[j].lo {
      if j == |acc| && i < |acc| - 1 {
        assert acc[i].hi < acc[|acc| - 1].lo;
      }
    }
  }

  lemma SeparatedJoin(acc: seq<Interval>, xs: seq<Interval>)
    requires Separated(acc) && Separated(xs) && |acc| > 0 && |xs| > 0
    requires acc[|acc| - 1].hi < xs[0].lo
    ensures Separated(acc + xs)
  {
    var r := acc + xs;
    forall i, j | 0 <= i < j < |r| ensures r[i].hi < r[j].lo {
      if i < |acc| && j >= |acc| {
        var n := |acc| - 1;
        assert acc[i].hi <= acc[n].hi by {
          if i < n { assert acc[i].hi < acc[n].lo; }
        }
        assert xs[0].lo <= xs[j - |acc|].lo by {
          if j > |acc| { assert xs[0].hi < xs[j - |acc|].lo; }
        }
      }
    }
  }

  /** Replacing the last interval by a longer one with the same start keeps a list separated. */
  lemma SeparatedWiden(acc: seq<Interval>, h: int)
    requires Separated(acc) && |acc| > 0 && h >= acc[|acc| - 1].hi
    ensures Separated(acc[..|acc| - 1] + [Interval(acc[|acc| - 1].lo, h)])
  {
  }

  // ---------------------------------------------------------------------
  // mergeIntervals (js/utils.js:5-82)
  // ---------------------------------------------------------------------

  function Last(acc: seq<Interval>): Interval
    requires |acc| > 0
  {
    acc[|acc| - 1]
  }

  /**
   * One step of the sweep: an interval starting at or before the end of the
   * last output interval is absorbed into it (its end becomes the larger of
   * the two ends); otherwise it is appended.
   */
  function Absorb(acc: seq<Interval>, x: Interval): (r: seq<Interval>)
    requires |acc| > 0
    ensures |acc| <= |r| <= |acc| + 1
  {
    if x.lo <= Last(acc).hi then acc[..|acc| - 1] + [Interval(Last(acc).lo, Max(Last(acc).hi, x.hi))]
    else acc + [x]
  }

  /**
   * The loops after the two-pointer phase (js/utils.js:50-79): intervals
   * are absorbed until the first one that starts after the last output
   * interval ends; that one and every later one are appended unexamined.
   */
  function Tail(acc: seq<Interval>, xs: seq<Interval>): (t: seq<Interval>)
    requires |acc| > 0
    ensures |t| >= |acc|
    decreases |xs|
  {
    if |xs| == 0 then acc
    else if Last(acc).hi < xs[0].lo then acc + xs
    else Tail(Absorb(acc, xs[0]), xs[1..])
  }

  /**
   * The two-pointer phase (js/utils.js:26-48): the interval of the first
   * list is taken when it starts strictly before the one of the second list,
   * otherwise the one of the second list.
   */
  function Sweep(acc: seq<Interval>, xs: seq<Interval>, ys: seq<Interval>): (r: seq<Interval>)
    requires |acc| > 0
    ensures |r| >= |acc|
    decreases |xs| + |ys|
  {
    if |xs| == 0 then Tail(acc, ys)
    else if |ys| == 0 then Tail(acc, xs)
    else if xs[0].lo < ys[0].lo then Sweep(Absorb(acc, xs[0]), xs[1..], ys)
    else Sweep(Absorb(acc, ys[0]), xs, ys[1..])
  }

  /** What mergeIntervals returns, for any two lists. */
  function Merge(a: seq<Interval>, b: seq<Interval>): seq<Interval>
  {
    if |a| == 0 then b
    else if |b| == 0 then a
    else if a[0].lo > b[0].lo then Sweep([b[0]], b[1..], a)
    else Sweep([a[0]], a[1..], b)
  }

  /** mergeIntervals, loop for loop. */
  method MergeIntervals(intervals1: seq<Interval>, intervals2: seq<Interval>) returns (r: seq<Interval>)
    ensures r == Merge(intervals1, intervals2)
    ensures |intervals1| == 0 ==> r == intervals2
    ensures |intervals2| == 0 ==> r == intervals1
  {
    if |intervals1| == 0 {
      return intervals2;
    }
    if |intervals2| == 0 {
      return intervals1;
    }
    var a, b := intervals1, intervals2;
    if a[0].lo > b[0].lo {
      a, b := b, a;
    }
    ghost var goal := Sweep([a[0]], a[1..], b);
    assert goal == Merge(intervals1, intervals2);
    r := [a[0]];
    var i, j := 1, 0;
    while i < |a| && j < |b|
      invariant 1 <= i <= |a| && 0 <= j <= |b| && |r| > 0
      invariant Sweep(r, a[i..], b[j..]) == goal
      decreases |a| - i + |b| - j
    {
      assert a[i..][0] == a[i] && a[i..][1..] == a[i + 1..];
      assert b[j..][0] == b[j] && b[j..][1..] == b[j + 1..];
      var last := r[|r| - 1];
      if a[i].lo < b[j].lo {
        if a[i].lo <= last.hi {
          r := r[..|r| - 1] + [Interval(last.lo, Max(last.hi, a[i].hi))];
        } else {
          r := r + [a[i]];
        }
        i := i + 1;
      } else {
        if b[j].lo <= last.hi {
          r := r[..|r| - 1] + [Interval(last.lo, Max(last.hi, b[j].hi))];
        } else {
          r := r + [b[j]];
        }
        j := j + 1;
      }
    }
    // The source keeps a reference to the last output interval here; only
    // one of the two lists can have anything left, so finishing each list
    // from the current last interval is the same thing.
    assert Tail(Tail(r, a[i..]), b[j..]) == goal by {
      if i == |a| { assert a[i..] == []; } else { assert b[j..] == []; }
    }
    r := FinishTail(r, a, i);
    r := FinishTail(r, b, j);
  }

  /** The loops of js/utils.js:51-64 and 66-79: finish one list from position k. */
  method FinishTail(r0: seq<Interval>, xs: seq<Interval>, k: nat) returns (r: seq<Interval>)
    requires |r0| > 0 && k <= |xs|
    ensures r == Tail(r0, xs[k..])
  {
    r := r0;
    var i := k;
    while i < |xs|
      invariant k <= i <= |xs| && |r| > 0
      invariant Tail(r, xs[i..]) == Tail(r0, xs[k..])
      decreases |xs| - i
    {
      assert xs[i..][0] == xs[i] && xs[i..][1..] == xs[i + 1..];
      var last := r[|r| - 1];
      if last.hi < xs[i].lo {
        ghost var r1, i1 := r, i;
        while i < |xs|
          invariant i1 <= i <= |xs| && r == r1 + xs[i1..i]
        {
          assert xs[i1..i + 1] == xs[i1..i] + [xs[i]];
          r := r + [xs[i]];
          i := i + 1;
        }
        assert xs[i1..] == xs[i1..i];
        return;
      } else {
        r := r[..|r| - 1] + [Interval(last.lo, Max(last.hi, xs[i].hi))];
        i := i + 1;
      }
    }
    assert xs[i..] == [];
  }

  // ---------------------------------------------------------------------
  // squishIntervals (js/utils.js:85-98; the same loop is written out again
  // at js/PatternFinder.js:194-205)
  // ---------------------------------------------------------------------

  /** The end of interval m reaches the start of interval m + 1. */
  predicate Touches(s: seq<Interval>, m: int)
    requires 0 <= m && m + 1 < |s|
  {
    s[m].hi >= s[m + 1].lo
  }

  /**
   * The last index of the run that starts at i: the run goes on while the
   * end of an interval reaches the start of the next one. Only neighbours
   * are compared, not the largest end seen so far.
   */
  function RunEnd(s: seq<Interval>, i: nat): (k: nat)
    requires i < |s|
    ensures i <= k < |s|
    ensures k + 1 == |s| || s[k].hi < s[k + 1].lo
    ensures forall m :: i <= m < k ==> Touches(s, m)
    decreases |s| - i
  {
    if i + 1 < |s| && s[i].hi >= s[i + 1].lo then RunEnd(s, i + 1) else i
  }

  /** One interval per run, from the run's first start to its last interval's end. */
  function SquishFrom(s: seq<Interval>, i: nat): seq<Interval>
    requires i <= |s|
    decreases |s| - i
  {
    if i == |s| then []
    else [Interval(s[i].lo, s[RunEnd(s, i)].hi)] + SquishFrom(s, RunEnd(s, i) + 1)
  }

  function Squish(s: seq<Interval>): seq<Interval>
  {
    SquishFrom(s, 0)
  }

  /** squishIntervals, loop for loop. */
  method SquishIntervals(intervals: seq<Interval>) returns (squished: seq<Interval>)
    ensures squished == Squish(intervals)
  {
    squished := [];
    var i := 0;
    while i < |intervals|
      invariant 0 <= i <= |intervals|
      invariant squished + SquishFrom(intervals, i) == Squish(intervals)
      decreases |intervals| - i
    {
      var lo := intervals[i].lo;
      var k := ScanRun(intervals, i);
      SquishStep(intervals, i, squished);
      squished := squished + [Interval(lo, intervals[k].hi)];
      i := k + 1;
    }
  }

  /** One round of SquishIntervals' outer loop emits the next run. */
  lemma SquishStep(s: seq<Interval>, i: nat, squished: seq<Interval>)
    requires i < |s| && squished + SquishFrom(s, i) == Squish(s)
    ensures (squished + [Interval(s[i].lo, s[RunEnd(s, i)].hi)]) + SquishFrom(s, RunEnd(s, i) + 1) == Squish(s)
  {
    var k := RunEnd(s, i);
    var run := [Interval(s[i].lo, s[k].hi)];
    var rest := SquishFrom(s, k + 1);
    calc {
      Squish(s);
      squished + SquishFrom(s, i);
      squished + (run + rest);
      (squished + run) + rest;
    }
  }

  /** The inner loop of squishIntervals: walk to the end of the run starting at i. */
  method ScanRun(s: seq<Interval>, i: nat) returns (k: nat)
    requires i < |s|
    ensures k == RunEnd(s, i)
  {
    k := i;
    while k + 1 < |s| && s[k].hi >= s[k + 1].lo
      invariant i <= k < |s|
      invariant RunEnd(s, k) == RunEnd(s, i)
      decreases |s| - k
    {
      k := k + 1;
    }
  }

  // ---------------------------------------------------------------------
  // intersectSpan (js/utils.js:101-138; written out again at
  // js/PatternFinder.js:210-243)
  // ---------------------------------------------------------------------

  /**
   * The two-pointer sweep: at each step the pair of current intervals is
   * compared, their overlap (if any) is added, and the pointer of the
   * interval that ends first (on a tie, the one that started later) moves on.
   */
  function IntersectLength(a: seq<Interval>, b: seq<Interval>): int
    decreases |a| + |b|
  {
    if |a| == 0 || |b| == 0 then 0
    else if a[0].lo < b[0].lo then
      if b[0].lo < a[0].hi then
        if b[0].hi <= a[0].hi then Len(b[0]) + IntersectLength(a, b[1..])
        else (a[0].hi - b[0].lo) + IntersectLength(a[1..], b)
      else IntersectLength(a[1..], b)
    else
      if a[0].lo < b[0].hi then
        if a[0].hi <= b[0].hi then Len(a[0]) + IntersectLength(a[1..], b)
        else (b[0].hi - a[0].lo) + IntersectLength(a, b[1..])
      else IntersectLength(a, b[1..])
  }

  /** intersectSpan, loop for loop; every iteration moves one of the two pointers. */
  method IntersectSpan(intervals1: seq<Interval>, intervals2: seq<Interval>) returns (span: int)
    ensures span == IntersectLength(intervals1, intervals2)
  {
    span := 0;
    var i, j := 0, 0;
    while i < |intervals1| && j < |intervals2|
      invariant 0 <= i <= |intervals1| && 0 <= j <= |intervals2|
      invariant span + IntersectLength(intervals1[i..], intervals2[j..]) == IntersectLength(intervals1, intervals2)
      decreases |intervals1| - i + |intervals2| - j
    {
      var i1, i2 := intervals1[i], intervals2[j];
      assert intervals1[i..][0] == i1 && intervals1[i..][1..] == intervals1[i + 1..];
      assert intervals2[j..][0] == i2 && intervals2[j..][1..] == intervals2[j + 1..];
      if i1.lo < i2.lo {
        if i2.lo < i1.hi {
          if i2.hi <= i1.hi {
            span := span + (i2.hi - i2.lo);
            j := j + 1;
          } else {
            span := span + (i1.hi - i2.lo);
            i := i + 1;
          }
        } else {
          i := i + 1;
        }
      } else {
        if i1.lo < i2.hi {
          if i1.hi <= i2.hi {
            span := span + (i1.hi - i1.lo);
            i := i + 1;
          } else {
            span := span + (i2.hi - i1.lo);
            j := j + 1;
          }
        } else {
          j := j + 1;
        }
      }
    }
    assert intervals1[i..] == [] || intervals2[j..] == [];
  }

  // ---------------------------------------------------------------------
  // subInterval (js/filters/SubPatternFilter.js:101-125 and, identically,
  // js/filters/PartialPatternFilter.js:98-122)
  // ---------------------------------------------------------------------

  /**
   * The containment sweep: false as soon as an interval of the first list
   * starts before the current interval of the second; otherwise the first
   * pointer moves when its interval ends inside the current one, the second
   * pointer when it does not; true iff the first list is used up.
   */
  function Contained(a: seq<Interval>, b: seq<Interval>): bool
    decreases |a| + |b|
  {
    if |a| == 0 then true
    else if |b| == 0 then false
    else if a[0].lo < b[0].lo then false
    else if a[0].hi <= b[0].hi then Contained(a[1..], b)
    else Contained(a, b[1..])
  }

  method SubInterval(intervals1: seq<Interval>, intervals2: seq<Interval>) returns (r: bool)
    ensures r == Contained(intervals1, intervals2)
  {
    var i, j := 0, 0;
    while i < |intervals1| && j < |intervals2|
      invariant 0 <= i <= |intervals1| && 0 <= j <= |intervals2|
      invariant Contained(intervals1[i..], intervals2[j..]) == Contained(intervals1, intervals2)
      decreases |intervals1| - i + |intervals2| - j
    {
      var i1, i2 := intervals1[i], intervals2[j];
      assert intervals1[i..][0] == i1 && intervals1[i..][1..] == intervals1[i + 1..];
      assert intervals2[j..][0] == i2 && intervals2[j..][1..] == intervals2[j + 1..];
      if i1.lo < i2.lo {
        return false;
      }
      if i1.hi <= i2.hi {
        i := i + 1;
      } else {
        j := j + 1;
      }
    }
    if i != |intervals1| {
      assert intervals2[j..] == [];
      return false;
    }
    assert intervals1[i..] == [];
    return true;
  }
}

module IntervalFacts {
  import opened Intervals

  // ---------------------------------------------------------------------
  // A separated list is determined by the points it covers
  // ---------------------------------------------------------------------

  lemma {:induction false} NotCoveredBelow(s: seq<Interval>, p: int)
    requires Separated(s) && |s| > 0
    ensures p < s[0].lo ==> !Covers(s, p)
  {
    if |s| > 1 {
      assert s[0].hi < s[1].lo;
      NotCoveredBelow(s[1..], p);
    }
  }

  /** The end of the first interval of a separated list is not covered. */
  lemma NotCoveredAtEnd(s: seq<Interval>)
    requires Separated(s) && |s| > 0
    ensures !Covers(s, s[0].hi)
  {
    if |s| > 1 {
      assert s[0].hi < s[1].lo;
      NotCoveredBelow(s[1..], s[0].hi);
    }
  }

  /** Covered points of a separated list's tail are exactly those past its head. */
  lemma CoversRest(s: seq<Interval>, p: int)
    requires Separated(s) && |s| > 0
    ensures Covers(s[1..], p) <==> Covers(s, p) && p >= s[0].hi
  {
    if |s| > 1 {
      assert s[0].hi < s[1].lo;
      NotCoveredBelow(s[1..], p);
    }
  }

  /** Two separated lists covering the same points are the same list. */
  lemma {:induction false} Canonical(s: seq<Interval>, t: seq<Interval>)
    requires Separated(s) && Separated(t)
    requires forall p :: Covers(s, p) <==> Covers(t, p)
    ensures s == t
    decreases |s| + |t|
  {
    if |s| == 0 || |t| == 0 {
      assert |s| > 0 ==> Covers(s, s[0].lo);
      assert |t| > 0 ==> Covers(t, t[0].lo);
      return;
    }
    NotCoveredBelow(s, t[0].lo);
    NotCoveredBelow(t, s[0].lo);
    assert Covers(s, s[0].lo) && Covers(t, t[0].lo);
    assert s[0].lo == t[0].lo;
    NotCoveredAtEnd(s);
    NotCoveredAtEnd(t);
    assert Covers(t, s[0].hi) == (In(s[0].hi, t[0]) || Covers(t[1..], s[0].hi));
    assert Covers(s, t[0].hi) == (In(t[0].hi, s[0]) || Covers(s[1..], t[0].hi));
    assert s[0] == t[0];
    forall p ensures Covers(s[1..], p) <==> Covers(t[1..], p) {
      CoversRest(s, p);
      CoversRest(t, p);
    }
    Canonical(s[1..], t[1..]);
    assert s == [s[0]] + s[1..];
    assert t == [t[0]] + t[1..];
  }

  // ---------------------------------------------------------------------
  // mergeIntervals on separated inputs
  // ---------------------------------------------------------------------

  /** The sweep's invariant: the last output interval is well formed and starts no later than what is left. */
  predicate Ahead(acc: seq<Interval>, xs: seq<Interval>)
    requires |acc| > 0
  {
    Last(acc).lo <= Last(acc).hi && (|xs| > 0 ==> Last(acc).lo <= xs[0].lo)
  }

  lemma AbsorbSeparated(acc: seq<Interval>, x: Interval)
    requires Separated(acc) && |acc| > 0 && x.lo < x.hi
    ensures Separated(Absorb(acc, x))
  {
    if x.lo <= Last(acc).hi {
      SeparatedWiden(acc, Max(Last(acc).hi, x.hi));
    } else {
      SeparatedAppend(acc, x);
    }
  }

  lemma AbsorbCovers(acc: seq<Interval>, x: Interval, p: int)
    requires |acc| > 0 && Last(acc).lo <= Last(acc).hi && Last(acc).lo <= x.lo <= x.hi
    ensures Covers(Absorb(acc, x), p) <==> Covers(acc, p) || In(p, x)
    ensures Last(Absorb(acc, x)).lo <= x.lo && Last(Absorb(acc, x)).lo <= Last(Absorb(acc, x)).hi
  {
    var n := |acc| - 1;
    assert acc == acc[..n] + [acc[n]];
    CoversConcat(acc[..n], [acc[n]], p);
    CoversSingle(acc[n], p);
    if x.lo <= Last(acc).hi {
      var w := Interval(acc[n].lo, Max(acc[n].hi, x.hi));
      CoversConcat(acc[..n], [w], p);
      CoversSingle(w, p);
    } else {
      CoversConcat(acc, [x], p);
      CoversSingle(x, p);
    }
  }

  lemma AbsorbFront(acc: seq<Interval>, x: Interval)
    requires |acc| > 0
    ensures Absorb(acc, x)[0].lo == acc[0].lo
  {
  }

  lemma AbsorbSpan(acc: seq<Interval>, x: Interval)
    requires |acc| > 0 && x.lo <= x.hi
    ensures Span(Absorb(acc, x)) <= Span(acc) + Len(x)
  {
    var n := |acc| - 1;
    assert acc == acc[..n] + [acc[n]];
    SpanConcat(acc[..n], [acc[n]]);
    if x.lo <= Last(acc).hi {
      SpanConcat(acc[..n], [Interval(acc[n].lo, Max(acc[n].hi, x.hi))]);
    } else {
      SpanConcat(acc, [x]);
    }
  }

  lemma {:induction false} TailProps(acc: seq<Interval>, xs: seq<Interval>, p: int)
    requires |acc| > 0 && Separated(xs) && Ahead(acc, xs)
    ensures Separated(acc) ==> Separated(Tail(acc, xs))
    ensures Covers(Tail(acc, xs), p) <==> Covers(acc, p) || Covers(xs, p)
    ensures Tail(acc, xs)[0].lo == acc[0].lo
    ensures Span(Tail(acc, xs)) <= Span(acc) + Span(xs)
    decreases |xs|
  {
    if |xs| == 0 {
    } else if Last(acc).hi < xs[0].lo {
      if Separated(acc) { SeparatedJoin(acc, xs); }
      CoversConcat(acc, xs, p);
      SpanConcat(acc, xs);
    } else {
      var acc' := Absorb(acc, xs[0]);
      if Separated(acc) { AbsorbSeparated(acc, xs[0]); }
      AbsorbCovers(acc, xs[0], p);
      AbsorbFront(acc, xs[0]);
      AbsorbSpan(acc, xs[0]);
      assert |xs| > 1 ==> xs[0].hi < xs[1].lo;
      TailProps(acc', xs[1..], p);
    }
  }

  lemma {:induction false} SweepProps(acc: seq<Interval>, xs: seq<Interval>, ys: seq<Interval>, p: int)
    requires |acc| > 0 && Separated(xs) && Separated(ys) && Ahead(acc, xs) && Ahead(acc, ys)
    ensures Separated(acc) ==> Separated(Sweep(acc, xs, ys))
    ensures Covers(Sweep(acc, xs, ys), p) <==> Covers(acc, p) || Covers(xs, p) || Covers(ys, p)
    ensures Sweep(acc, xs, ys)[0].lo == acc[0].lo
    ensures Span(Sweep(acc, xs, ys)) <= Span(acc) + Span(xs) + Span(ys)
    decreases |xs| + |ys|
  {
    if |xs| == 0 {
      TailProps(acc, ys, p);
    } else if |ys| == 0 {
      TailProps(acc, xs, p);
    } else if xs[0].lo < ys[0].lo {
      if Separated(acc) { AbsorbSeparated(acc, xs[0]); }
      AbsorbCovers(acc, xs[0], p);
      AbsorbFront(acc, xs[0]);
      AbsorbSpan(acc, xs[0]);
      assert |xs| > 1 ==> xs[0].hi < xs[1].lo;
      SweepProps(Absorb(acc, xs[0]), xs[1..], ys, p);
    } else {
      if Separated(acc) { AbsorbSeparated(acc, ys[0]); }
      AbsorbCovers(acc, ys[0], p);
      AbsorbFront(acc, ys[0]);
      AbsorbSpan(acc, ys[0]);
      assert |ys| > 1 ==> ys[0].hi < ys[1].lo;
      SweepProps(Absorb(acc, ys[0]), xs, ys[1..], p);
    }
  }

  /**
   * On separated inputs mergeIntervals returns a separated list covering
   * exactly the points of the two inputs, whose first interval starts where
   * the earlier of the two inputs starts, and whose span is at most the sum
   * of the two spans (a union, not a concatenation).
   */
  lemma MergeUnion(a: seq<Interval>, b: seq<Interval>)
    requires Separated(a) && Separated(b)
    ensures Separated(Merge(a, b))
    ensures forall p :: Covers(Merge(a, b), p) <==> Covers(a, p) || Covers(b, p)
    ensures |a| > 0 && |b| > 0 ==> |Merge(a, b)| > 0 && Merge(a, b)[0].lo == Min(a[0].lo, b[0].lo)
    ensures Span(Merge(a, b)) <= Span(a) + Span(b)
  {
    if |a| > 0 && |b| > 0 {
      if a[0].lo > b[0].lo {
        SweepFromHead(b, a);
      } else {
        SweepFromHead(a, b);
      }
    }
  }

  /** The sweep started from the head of the list that starts first. */
  lemma SweepFromHead(first: seq<Interval>, other: seq<Interval>)
    requires Separated(first) && Separated(other) && |first| > 0 && |other| > 0
    requires first[0].lo <= other[0].lo
    ensures Separated(Sweep([first[0]], first[1..], other))
    ensures forall p :: Covers(Sweep([first[0]], first[1..], other), p) <==> Covers(first, p) || Covers(other, p)
    ensures Sweep([first[0]], first[1..], other)[0].lo == first[0].lo
    ensures Span(Sweep([first[0]], first[1..], other)) <= Span(first) + Span(other)
  {
    var x, xs := first[0], first[1..];
    assert first == [x] + xs;
    SeparatedTail(first, 1);
    assert Separated([x]);
    assert Last([x]) == x;
    assert |xs| > 0 ==> x.hi < xs[0].lo;
    assert Ahead([x], xs) && Ahead([x], other);
    var r := Sweep([x], xs, other);
    forall p ensures Covers(r, p) <==> Covers(first, p) || Covers(other, p) {
      SweepProps([x], xs, other, p);
      CoversConcat([x], xs, p);
    }
    SweepProps([x], xs, other, 0);
    SpanConcat([x], xs);
  }

  /** mergeIntervals is commutative on separated inputs. */
  lemma MergeCommutes(a: seq<Interval>, b: seq<Interval>)
    requires Separated(a) && Separated(b)
    ensures Merge(a, b) == Merge(b, a)
  {
    MergeUnion(a, b);
    MergeUnion(b, a);
    Canonical(Merge(a, b), Merge(b, a));
  }

  /** Merging a separated list with itself, or again with either input, changes nothing. */
  lemma MergeIdempotent(a: seq<Interval>, b: seq<Interval>)
    requires Separated(a) && Separated(b)
    ensures Merge(a, a) == a
    ensures Merge(a, Merge(a, b)) == Merge(a, b)
  {
    MergeUnion(a, a);
    Canonical(Merge(a, a), a);
    MergeUnion(a, b);
    MergeUnion(a, Merge(a, b));
    Canonical(Merge(a, Merge(a, b)), Merge(a, b));
  }
}
