/**
 * What the discovery engine promises about its results: every recorded
 * frame is a complete call stack of admissible length, the partition sends
 * each kept start to exactly the group of the event after its body, cluster
 * collapse yields a disjoint cover of the occurrences, and the acceptance
 * rule records a pattern nothing extends and rejects one that is covered.
 */
module PatternFacts {
  import opened Intervals
  import opened IntervalFacts
  import opened SquishFacts
  import opened IntersectFacts
  import opened ContainFacts
  import opened Events
  import opened Grouping
  import opened PatternFinder

  /**
   * The frame's body occurs after each of the starts: f.count of them,
   * strictly ascending, the first one the frame's own start.
   */
  predicate OccursAt(t: seq<Event>, f: PatternFrame, starts: seq<int>)
  {
    && |starts| == f.count && |starts| > 0 && starts[0] == f.start
    && (forall i, j :: 0 <= i < j < |starts| ==> starts[i] < starts[j])
    && (forall i :: 0 <= i < |starts| ==>
          0 <= starts[i] && starts[i] + (f.end - f.start) + 1 < |t|
          && Body(t, f.end - f.start, starts[i]) == Body(t, f.end - f.start, f.start))
  }

  /**
   * A recorded frame (start, end]: an admissible length, inside the trace,
   * a complete call stack, and repeated: its body occurs after f.count >= 2
   * distinct starts of the trace.
   */
  ghost predicate FrameSound(t: seq<Event>, f: PatternFrame)
  {
    && MIN_PATTERN_LENGTH <= f.end - f.start <= MAX_PATTERN_LENGTH
    && f.count >= 2
    && 0 <= f.start && f.end + 1 < |t|
    && Balanced(t[f.start + 1..f.end + 1])
    && exists starts :: OccursAt(t, f, starts)
  }

  ghost predicate AllSound(t: seq<Event>, frames: seq<PatternFrame>)
  {
    forall f :: f in frames ==> FrameSound(t, f)
  }

  /** Every frame one call of processPointerList records is sound. */
  lemma {:induction false} ProcessSound(t: seq<Event>, offset: int, depth: int, list: seq<int>)
    requires ListInv(t, offset, depth, list) && SharedBody(t, offset, list)
    ensures AllSound(t, Process(t, offset, depth, list).frames)
    decreases MAX_PATTERN_LENGTH + 1 - offset, 3, 0
  {
    if |list| <= 1 || offset > MAX_PATTERN_LENGTH {
    } else if depth == 0 && offset >= MIN_PATTERN_LENGTH {
      PatternCaseSound(t, offset, list);
    } else {
      SurvivorsMarked(t, offset, depth, list);
      ExtendSound(t, offset, depth, list);
    }
  }

  lemma {:induction false} PatternCaseSound(t: seq<Event>, offset: int, list: seq<int>)
    requires ListInv(t, offset, 0, list) && SharedBody(t, offset, list)
    requires MIN_PATTERN_LENGTH <= offset <= MAX_PATTERN_LENGTH && |list| >= 2
    ensures AllSound(t, PatternCase(t, offset, list).frames)
    decreases MAX_PATTERN_LENGTH + 1 - offset, 2, 0
  {
    SurvivorsMarked(t, offset, 0, list);
    SurvivorsShared(t, offset, list);
    ExtendSound(t, offset, 0, Survivors(list, offset));
    PatternFrameSound(t, offset, list);
    PatternCaseFrames(t, offset, list);
  }

  /** The frame a pattern-case list would record is sound. */
  lemma PatternFrameSound(t: seq<Event>, offset: int, list: seq<int>)
    requires ListInv(t, offset, 0, list) && SharedBody(t, offset, list)
    requires MIN_PATTERN_LENGTH <= offset <= MAX_PATTERN_LENGTH && |list| >= 2
    ensures FrameSound(t, PatternFrame(list[0], list[0] + offset, |list|))
  {
    var f := PatternFrame(list[0], list[0] + offset, |list|);
    assert Good(t, offset, 0, list[0]);
    forall i | 0 < i < |list| ensures Body(t, offset, list[i]) == Body(t, offset, list[0]) {
      assert Good(t, offset, 0, list[i]);
    }
    assert OccursAt(t, f, list);
  }

  /** The pattern case records its children's frames, then at most its own frame. */
  lemma PatternCaseFrames(t: seq<Event>, offset: int, list: seq<int>)
    requires ListInv(t, offset, 0, list) && 0 <= offset <= MAX_PATTERN_LENGTH && |list| > 0
    requires MarkedInv(t, offset, 0, Survivors(list, offset))
    ensures var kids := Extend(t, offset, 0, Survivors(list, offset)).frames;
      || PatternCase(t, offset, list).frames == kids
      || PatternCase(t, offset, list).frames == kids + [PatternFrame(list[0], list[0] + offset, |list|)]
  {
  }

  lemma {:induction false} ExtendSound(t: seq<Event>, offset: int, depth: int, list: seq<int>)
    requires MarkedInv(t, offset, depth, list) && SharedBody(t, offset, list) && offset <= MAX_PATTERN_LENGTH
    ensures AllSound(t, Extend(t, offset, depth, list).frames)
    decreases MAX_PATTERN_LENGTH + 1 - offset, 1, 0
  {
    PartitionChildren(t, offset, depth, list);
    PartitionShared(t, offset, depth, list);
    var p := Partition(t, offset, depth, list);
    GroupsSound(t, offset, depth, p, |p|);
  }

  lemma {:induction false} GroupsSound(t: seq<Event>, offset: int, depth: int, gs: seq<(Event, seq<int>)>, n: nat)
    requires 0 <= offset <= MAX_PATTERN_LENGTH && n <= |gs|
    requires forall i :: 0 <= i < |gs| ==> ListInv(t, offset + 1, depth + Delta(gs[i].0), gs[i].1)
    requires forall i :: 0 <= i < |gs| ==> SharedBody(t, offset + 1, gs[i].1)
    ensures AllSound(t, ProcessGroups(t, offset, depth, gs, n).frames)
    decreases MAX_PATTERN_LENGTH + 1 - offset, 0, n
  {
    if n > 0 {
      GroupsSound(t, offset, depth, gs, n - 1);
      ProcessSound(t, offset + 1, depth + Delta(gs[n - 1].0), gs[n - 1].1);
    }
  }

  /** findPatterns on a wrapped trace records only sound frames. */
  lemma FindSound(t: seq<Event>)
    requires Wrapped(t)
    ensures AllSound(t, Find(t).frames)
  {
    AllStartsInv(t);
    AllStartsShared(t);
    ProcessSound(t, 0, 0, AllStarts(t));
  }

  // ---------------------------------------------------------------------
  // Extension and partition
  // ---------------------------------------------------------------------

  /** A start that is kept and does not leave its base frame is pushed under the event after its body. */
  lemma ExtensionComplete(t: seq<Event>, offset: int, depth: int, list: seq<int>, i: nat)
    requires MarkedInv(t, offset, depth, list) && i < |list| && list[i] != INTERVAL_DROPPED
    requires !(depth == 0 && t[list[i] + offset + 1].Exit?)
    ensures (t[list[i] + offset + 1], list[i]) in Extension(t, offset, depth, list)
  {
    ExtensionPrefixComplete(t, offset, depth, list, |list|, i);
    assert list[..|list|] == list;
  }

  lemma {:induction false} ExtensionPrefixComplete(t: seq<Event>, offset: int, depth: int, list: seq<int>, n: nat, i: nat)
    requires MarkedInv(t, offset, depth, list) && i < n <= |list| && list[i] != INTERVAL_DROPPED
    requires !(depth == 0 && t[list[i] + offset + 1].Exit?)
    ensures (t[list[i] + offset + 1], list[i]) in Extension(t, offset, depth, list[..n])
  {
    ExtensionSnoc(t, offset, depth, list, n);
    if i < n - 1 {
      ExtensionPrefixComplete(t, offset, depth, list, n - 1, i);
    }
  }

  /** A pushed pair is a kept start of the list, keyed by the event after its body, that stays in its frame. */
  lemma ExtensionSound(t: seq<Event>, offset: int, depth: int, list: seq<int>, key: Event, s: int)
    requires MarkedInv(t, offset, depth, list)
    requires (key, s) in Extension(t, offset, depth, list)
    ensures s in list && Good(t, offset, depth, s)
    ensures t[s + offset + 1] == key && !(depth == 0 && key.Exit?)
  {
    ExtensionFacts(t, offset, depth, list);
  }

  /** The group of a key holds that key's values. */
  lemma GroupOf<K, V>(pairs: seq<(K, V)>, g: (K, seq<V>))
    requires g in GroupByKey(pairs)
    ensures g.1 == ValuesOf(pairs, g.0)
  {
    GroupByKeySpec(pairs);
    var gs := GroupByKey(pairs);
    var j :| 0 <= j < |gs| && gs[j] == g;
  }

  /** Every start in the group of key e is a kept start of the list whose next event is e and that stays in its frame. */
  lemma PartitionSound(t: seq<Event>, offset: int, depth: int, list: seq<int>, g: (Event, seq<int>), s: int)
    requires MarkedInv(t, offset, depth, list)
    requires g in Partition(t, offset, depth, list) && s in g.1
    ensures s in list && Good(t, offset, depth, s)
    ensures t[s + offset + 1] == g.0 && !(depth == 0 && g.0.Exit?)
  {
    var pairs := Extension(t, offset, depth, list);
    GroupOf(pairs, g);
    ValuesOfMember(pairs, g.0, s);
    ExtensionSound(t, offset, depth, list, g.0, s);
  }

  /** Every kept start that stays in its frame lands in the group of the event after its body. */
  lemma PartitionComplete(t: seq<Event>, offset: int, depth: int, list: seq<int>, i: nat)
    requires MarkedInv(t, offset, depth, list) && i < |list| && list[i] != INTERVAL_DROPPED
    requires !(depth == 0 && t[list[i] + offset + 1].Exit?)
    ensures exists g :: g in Partition(t, offset, depth, list) && g.0 == t[list[i] + offset + 1] && list[i] in g.1
  {
    var pairs := Extension(t, offset, depth, list);
    var gs := Partition(t, offset, depth, list);
    var key := t[list[i] + offset + 1];
    ExtensionComplete(t, offset, depth, list, i);
    PairKeysMember(pairs, key, list[i]);
    GroupByKeySpec(pairs);
    KeysIndex(gs, key);
    var j :| 0 <= j < |gs| && gs[j].0 == key;
    ValuesOfComplete(pairs, key, list[i]);
    assert gs[j] in gs;
  }

  // ---------------------------------------------------------------------
  // Cluster collapse
  // ---------------------------------------------------------------------

  predicate StrictlyAscending(list: seq<int>)
  {
    forall i, j :: 0 <= i < j < |list| ==> list[i] < list[j]
  }

  /**
   * The cluster intervals of an ascending list are separated, cover exactly
   * the points of its occurrences, and are no more numerous than the starts.
   */
  lemma ClusterCover(list: seq<int>, offset: int)
    requires offset > 0 && StrictlyAscending(list)
    ensures Separated(Squish(Occurrences(list, offset)))
    ensures forall p :: Covers(Squish(Occurrences(list, offset)), p) <==> Covers(Occurrences(list, offset), p)
    ensures |Squish(Occurrences(list, offset))| <= |list|
  {
    var occ := Occurrences(list, offset);
    assert Ascending(occ) by {
      forall i, j | 0 <= i <= j < |occ| ensures NoLater(occ, i, j) {
        assert occ[i] == Interval(list[i], list[i] + offset) && occ[j] == Interval(list[j], list[j] + offset);
      }
    }
    SquishAscending(occ);
    SquishLength(occ);
  }

  /** An interval that starts a run on its own and ends it is emitted unchanged. */
  lemma {:induction false} LoneRunEmitted(s: seq<Interval>, j: nat, i: nat)
    requires j <= i < |s| && RunEnd(s, i) == i
    requires i == j || !Touches(s, i - 1)
    ensures s[i] in SquishFrom(s, j)
    decreases i - j
  {
    var k := RunEnd(s, j);
    if i == j {
      assert SquishFrom(s, j)[0] == s[i];
    } else {
      assert k < i;
      assert SquishFrom(s, j) == [Interval(s[j].lo, s[k].hi)] + SquishFrom(s, k + 1);
      LoneRunEmitted(s, k + 1, i);
    }
  }

  /** A start that survives collapse is an occurrence of its own: [s, s + offset] is one of the cluster intervals. */
  lemma SurvivorEmitted(list: seq<int>, offset: int, i: nat)
    requires i < |list| && Survivors(list, offset)[i] != INTERVAL_DROPPED
    ensures Interval(list[i], list[i] + offset) in Squish(Occurrences(list, offset))
  {
    var occ := Occurrences(list, offset);
    assert !Clustered(list, offset, i);
    assert i + 1 < |occ| ==> !Touches(occ, i);
    assert i > 0 ==> !Touches(occ, i - 1);
    LoneRunEmitted(occ, 0, i);
  }

  /**
   * Starts exactly one body length apart form one cluster: three back-to-back
   * repeats of a body of 4 events give one interval [s, s + 12] and all three
   * starts are dropped.
   */
  lemma ClusterTouching(s: int)
    ensures Squish(Occurrences([s, s + 4, s + 8], 4)) == [Interval(s, s + 12)]
    ensures Survivors([s, s + 4, s + 8], 4) == [INTERVAL_DROPPED, INTERVAL_DROPPED, INTERVAL_DROPPED]
  {
    var occ := Occurrences([s, s + 4, s + 8], 4);
    assert RunEnd(occ, 2) == 2;
    assert RunEnd(occ, 0) == 2;
    assert SquishFrom(occ, 3) == [];
  }

  /** Starts more than a body length apart stay apart: each keeps its own interval and none is dropped. */
  lemma ClusterApart(s: int)
    ensures Squish(Occurrences([s, s + 5, s + 10], 4)) == [Interval(s, s + 4), Interval(s + 5, s + 9), Interval(s + 10, s + 14)]
    ensures Survivors([s, s + 5, s + 10], 4) == [s, s + 5, s + 10]
  {
    var occ := Occurrences([s, s + 5, s + 10], 4);
    assert RunEnd(occ, 0) == 0 && RunEnd(occ, 1) == 1 && RunEnd(occ, 2) == 2;
    assert SquishFrom(occ, 3) == [];
    assert SquishFrom(occ, 2) == [Interval(s + 10, s + 14)];
    assert SquishFrom(occ, 1) == [Interval(s + 5, s + 9), Interval(s + 10, s + 14)];
  }

  // ---------------------------------------------------------------------
  // Sorting the extended intervals
  // ---------------------------------------------------------------------

  predicate SortedByLo(s: seq<Interval>)
  {
    forall i, j :: 0 <= i < j < |s| ==> s[i].lo <= s[j].lo
  }

  /** An interval no later than every element of a sorted sequence may go in front of it. */
  lemma ConsSorted(a: Interval, r: seq<Interval>)
    requires SortedByLo(r) && forall k :: 0 <= k < |r| ==> a.lo <= r[k].lo
    ensures SortedByLo([a] + r)
  {
    forall i, j | 0 <= i < j < |[a] + r| ensures ([a] + r)[i].lo <= ([a] + r)[j].lo {
      if i > 0 {
        assert ([a] + r)[i] == r[i - 1];
      }
      assert ([a] + r)[j] == r[j - 1];
    }
  }

  lemma {:induction false} InsertByLoSpec(x: Interval, s: seq<Interval>)
    requires SortedByLo(s)
    ensures SortedByLo(InsertByLo(x, s))
    ensures multiset(InsertByLo(x, s)) == multiset(s) + multiset{x}
  {
    if |s| == 0 {
    } else if x.lo < s[0].lo {
      ConsSorted(x, s);
    } else {
      var r := InsertByLo(x, s[1..]);
      InsertByLoSpec(x, s[1..]);
      assert s == [s[0]] + s[1..];
      LowerBoundKept(s[0].lo, x, s[1..], r);
      ConsSorted(s[0], r);
    }
  }

  /** A lower bound on the starts of s and of x bounds every permutation of s plus x. */
  lemma LowerBoundKept(a: int, x: Interval, s: seq<Interval>, r: seq<Interval>)
    requires a <= x.lo && forall m :: 0 <= m < |s| ==> a <= s[m].lo
    requires multiset(r) == multiset(s) + multiset{x}
    ensures forall k :: 0 <= k < |r| ==> a <= r[k].lo
  {
    forall k | 0 <= k < |r| ensures a <= r[k].lo {
      assert r[k] in multiset(r);
      if r[k] != x {
        assert r[k] in multiset(s);
        var m :| 0 <= m < |s| && s[m] == r[k];
      }
    }
  }

  /** The sort by start (js/PatternFinder.js:190-192) orders by start and keeps every interval. */
  lemma {:induction false} SortByLoSpec(s: seq<Interval>)
    ensures SortedByLo(SortByLo(s))
    ensures multiset(SortByLo(s)) == multiset(s)
  {
    if |s| > 0 {
      var init := s[..|s| - 1];
      SortByLoSpec(init);
      InsertByLoSpec(s[|s| - 1], SortByLo(init));
      assert s == init + [s[|s| - 1]];
    }
  }

  // ---------------------------------------------------------------------
  // Acceptance
  // ---------------------------------------------------------------------

  /** A pattern that nothing longer extends is always recorded. */
  lemma NothingExtendsRecorded(t: seq<Event>, offset: int, list: seq<int>)
    requires ListInv(t, offset, 0, list) && MIN_PATTERN_LENGTH <= offset <= MAX_PATTERN_LENGTH && |list| >= 2
    ensures Extend(t, offset, 0, Survivors(list, offset)).intervals == [] ==>
      PatternCase(t, offset, list).frames
        == Extend(t, offset, 0, Survivors(list, offset)).frames + [PatternFrame(list[0], list[0] + offset, |list|)]
  {
    var own := Squish(Occurrences(list, offset));
    ClusterCover(list, offset);
    SumBounds(own[1..], own[1..]);
    SeparatedTail(own, 1);
    assert Span(own) > 0;
  }

  /** A pattern whose own occurrences lie inside what extends it is never recorded. */
  lemma CoveredRejected(t: seq<Event>, offset: int, list: seq<int>)
    requires ListInv(t, offset, 0, list) && MIN_PATTERN_LENGTH <= offset <= MAX_PATTERN_LENGTH && |list| >= 2
    ensures var own := Squish(Occurrences(list, offset));
      var ext := Squish(SortByLo(Extend(t, offset, 0, Survivors(list, offset)).intervals));
      Separated(ext) && Contained(own, ext) ==> PatternCase(t, offset, list).frames == Extend(t, offset, 0, Survivors(list, offset)).frames
  {
    var own := Squish(Occurrences(list, offset));
    var ext := Squish(SortByLo(Extend(t, offset, 0, Survivors(list, offset)).intervals));
    ClusterCover(list, offset);
    if Separated(ext) && Contained(own, ext) {
      ContainedIntersect(own, ext);
      SumBounds(own, own);
    }
  }

  /** A trace with no events of its own has no pattern. */
  lemma FindNothing()
    ensures Wrapped(Wrap([])) && Find(Wrap([])).frames == []
  {
    WrapBalanced([]);
    var t := Wrap([]);
    AllStartsInv(t);
    assert |AllStarts(t)| == 1;
    assert Find(t) == Process(t, 0, 0, AllStarts(t));
  }
}
