/**
 * What squishIntervals (js/utils.js:85-98) guarantees, and where it falls
 * short: it compares each interval with its neighbour only, so it coalesces
 * correctly when both starts and ends ascend, but may lose points when an
 * interval nests inside an earlier, longer one.
 */
module SquishFacts {
  import opened Intervals

  /** Starts and ends both ascend, and every interval is non-empty. */
  predicate Ascending(s: seq<Interval>)
  {
    && (forall k :: 0 <= k < |s| ==> s[k].lo < s[k].hi)
    && (forall i, j :: 0 <= i <= j < |s| ==> NoLater(s, i, j))
  }

  /** Interval j neither starts nor ends before interval i. */
  predicate NoLater(s: seq<Interval>, i: int, j: int)
    requires 0 <= i <= j < |s|
  {
    s[i].lo <= s[j].lo && s[i].hi <= s[j].hi
  }

  lemma {:induction false} SquishFromLength(s: seq<Interval>, i: nat)
    requires i <= |s|
    ensures |SquishFrom(s, i)| <= |s| - i
    decreases |s| - i
  {
    if i < |s| {
      SquishFromLength(s, RunEnd(s, i) + 1);
    }
  }

  /** Squishing never lengthens a list. */
  lemma SquishLength(s: seq<Interval>)
    ensures |Squish(s)| <= |s|
  {
    SquishFromLength(s, 0);
  }

  lemma {:induction false} SquishFromSeparated(s: seq<Interval>, i: nat)
    requires Separated(s) && i <= |s|
    ensures SquishFrom(s, i) == s[i..]
    decreases |s| - i
  {
    if i < |s| {
      if i + 1 < |s| {
        assert s[i].hi < s[i + 1].lo;
      }
      assert RunEnd(s, i) == i;
      SquishFromSeparated(s, i + 1);
      assert s[i..] == [s[i]] + s[i + 1..];
    }
  }

  /** A separated list is already squished; in particular so is every merge result. */
  lemma SquishSeparated(s: seq<Interval>)
    requires Separated(s)
    ensures Squish(s) == s
  {
    SquishFromSeparated(s, 0);
  }

  /** A run of touching intervals with ascending ends covers one contiguous range. */
  lemma {:induction false} RunCovers(s: seq<Interval>, i: nat, k: nat, p: int)
    requires Ascending(s) && i <= k < |s|
    requires forall m :: i <= m < k ==> Touches(s, m)
    ensures Covers(s[i..k + 1], p) <==> s[i].lo <= p < s[k].hi
    decreases k - i
  {
    if k == i {
      assert s[i..k + 1] == [s[i]];
      CoversSingle(s[i], p);
    } else {
      RunCovers(s, i, k - 1, p);
      assert Touches(s, k - 1) && NoLater(s, i, k) && NoLater(s, k - 1, k);
      assert s[i..k + 1] == s[i..k] + [s[k]];
      CoversConcat(s[i..k], [s[k]], p);
      CoversSingle(s[k], p);
    }
  }

  lemma {:induction false} SquishFromCovers(s: seq<Interval>, i: nat, p: int)
    requires Ascending(s) && i <= |s|
    ensures Covers(SquishFrom(s, i), p) <==> Covers(s[i..], p)
    decreases |s| - i
  {
    if i < |s| {
      SquishFromCovers(s, RunEnd(s, i) + 1, p);
      SquishCoversStep(s, i, p);
    }
  }

  /** The inductive step of SquishFromCovers: the first run covers what its intervals cover. */
  lemma SquishCoversStep(s: seq<Interval>, i: nat, p: int)
    requires Ascending(s) && i < |s|
    requires Covers(SquishFrom(s, RunEnd(s, i) + 1), p) <==> Covers(s[RunEnd(s, i) + 1..], p)
    ensures Covers(SquishFrom(s, i), p) <==> Covers(s[i..], p)
  {
    var k := RunEnd(s, i);
    SquishHeadCovers(s, i, p);
    RunCovers(s, i, k, p);
    SuffixSplitCovers(s, i, k + 1, p);
  }

  /** A squished sequence covers p when its first run or the rest does. */
  lemma SquishHeadCovers(s: seq<Interval>, i: nat, p: int)
    requires i < |s|
    ensures Covers(SquishFrom(s, i), p) <==>
      In(p, Interval(s[i].lo, s[RunEnd(s, i)].hi)) || Covers(SquishFrom(s, RunEnd(s, i) + 1), p)
  {
    var x := Interval(s[i].lo, s[RunEnd(s, i)].hi);
    var rest := SquishFrom(s, RunEnd(s, i) + 1);
    assert SquishFrom(s, i) == [x] + rest;
    CoversConcat([x], rest, p);
    CoversSingle(x, p);
  }

  /** Cutting a suffix at j splits what it covers. */
  lemma SuffixSplitCovers(s: seq<Interval>, i: nat, j: nat, p: int)
    requires i <= j <= |s|
    ensures Covers(s[i..], p) <==> Covers(s[i..j], p) || Covers(s[j..], p)
  {
    assert s[i..] == s[i..j] + s[j..];
    CoversConcat(s[i..j], s[j..], p);
  }

  lemma {:induction false} SquishFromSeparates(s: seq<Interval>, i: nat)
    requires Ascending(s) && i <= |s|
    ensures Separated(SquishFrom(s, i))
    ensures i < |s| ==> forall x :: x in SquishFrom(s, i) ==> s[i].lo <= x.lo
    decreases |s| - i
  {
    if i < |s| {
      var k := RunEnd(s, i);
      var x := Interval(s[i].lo, s[k].hi);
      var t := SquishFrom(s, k + 1);
      SquishFromSeparates(s, k + 1);
      assert x.lo < x.hi by {
        assert s[i].lo < s[i].hi && NoLater(s, i, k);
      }
      if |t| > 0 {
        assert t[0] in t;
        SeparatedJoin([x], t);
        assert [x] + t == SquishFrom(s, i);
      }
      forall y | y in SquishFrom(s, i) ensures s[i].lo <= y.lo {
        if y != x {
          assert y in t;
        }
      }
    }
  }

  /**
   * When starts and ends both ascend, squishIntervals yields a separated list
   * covering exactly the points of its input.
   */
  lemma SquishAscending(s: seq<Interval>)
    requires Ascending(s)
    ensures Separated(Squish(s))
    ensures forall p :: Covers(Squish(s), p) <==> Covers(s, p)
  {
    SquishFromSeparates(s, 0);
    forall p ensures Covers(Squish(s), p) <==> Covers(s, p) {
      SquishFromCovers(s, 0, p);
      assert s[0..] == s;
    }
  }

  /**
   * Sorted by start only, a nested interval ends the run early: [0,10], [2,3],
   * [5,6] squish to [0,3], [5,6], and point 4 is lost.
   */
  lemma SquishDropsNested()
    ensures Squish([Interval(0, 10), Interval(2, 3), Interval(5, 6)]) == [Interval(0, 3), Interval(5, 6)]
    ensures Covers([Interval(0, 10), Interval(2, 3), Interval(5, 6)], 4)
    ensures !Covers([Interval(0, 3), Interval(5, 6)], 4)
  {
    var s := [Interval(0, 10), Interval(2, 3), Interval(5, 6)];
    assert RunEnd(s, 2) == 2;
    assert RunEnd(s, 1) == 1;
    assert RunEnd(s, 0) == 1;
    assert SquishFrom(s, 3) == [];
    assert SquishFrom(s, 2) == [Interval(5, 6)];
    assert SquishFrom(s, 0) == [Interval(0, 3)] + SquishFrom(s, 2);
    assert In(4, s[0]);
    var t := [Interval(0, 3), Interval(5, 6)];
    assert t[1..][1..] == [];
  }
}
