/**
 * The discovery engine of js/PatternFinder.js: a recursive extend-and-
 * partition trie over start indices of a root-wrapped trace.
 *
 * A candidate list holds start indices s that share the body trace(s, s+offset]
 * (the `offset` events after s) at relative stack height `stackDepth`. At each
 * level the bodies grow by one event, the list is split by that event, and a
 * list whose body is a complete call stack of at least MIN_PATTERN_LENGTH
 * events is a pattern candidate: its overlapping occurrences are collapsed
 * into clusters, and it is recorded when its occurrences are not mostly
 * covered by the longer patterns that extend it.
 *
 * The functions below give the meaning of one call of processPointerList;
 * the class PatternFinder performs it step by step, as the program does.
 */
module PatternFinder {
  import opened Intervals
  import opened Events
  import opened Grouping

  const MAX_PATTERN_LENGTH: int := 200
  const MIN_PATTERN_LENGTH: int := 4
  const INTERVAL_DROPPED: int := -1

  /** A recorded pattern: its first occurrence (start, end] and its number of occurrences. */
  datatype PatternFrame = PatternFrame(start: int, end: int, count: int)

  /** What one call of processPointerList contributes: recorded frames, in order, and the returned intervals. */
  datatype Outcome = Outcome(frames: seq<PatternFrame>, intervals: seq<Interval>)

  // ---------------------------------------------------------------------
  // The shape of a candidate list
  // ---------------------------------------------------------------------

  /**
   * Start s carries a body of `offset` events at net height `depth` that
   * never dips below its start, and the event after the body exists.
   */
  predicate Good(t: seq<Event>, offset: int, depth: int, s: int)
  {
    0 <= offset && 0 <= s && s + offset + 1 < |t|
    && Depth(t[s + 1..s + offset + 1]) == depth
    && PrefixNonNeg(t[s + 1..s + offset + 1])
  }

  /** The body trace(s, s+offset] of start s, or nothing when it does not lie in the trace. */
  function Body(t: seq<Event>, offset: int, s: int): seq<Event>
  {
    if 0 <= s && 0 <= offset && s + offset + 1 <= |t| then t[s + 1..s + offset + 1] else []
  }

  /** A PointerList as the engine builds it: good, strictly ascending starts over a wrapped trace. */
  predicate ListInv(t: seq<Event>, offset: int, depth: int, list: seq<int>)
  {
    && Wrapped(t) && 0 <= offset && 0 <= depth
    && (forall i :: 0 <= i < |list| ==> Good(t, offset, depth, list[i]))
    && (forall i, j :: 0 <= i < j < |list| ==> list[i] < list[j])
  }

  /** The common subtrace of a PointerList: every two of its kept starts carry the same body. */
  predicate SharedBody(t: seq<Event>, offset: int, list: seq<int>)
  {
    forall i, j :: 0 <= i < j < |list| && list[i] != INTERVAL_DROPPED && list[j] != INTERVAL_DROPPED ==>
      Body(t, offset, list[i]) == Body(t, offset, list[j])
  }

  /** The list after cluster collapse: good starts or dropped markers, ascending apart from the markers. */
  predicate MarkedInv(t: seq<Event>, offset: int, depth: int, list: seq<int>)
  {
    && Wrapped(t) && 0 <= offset && 0 <= depth
    && (forall i :: 0 <= i < |list| ==> list[i] == INTERVAL_DROPPED || Good(t, offset, depth, list[i]))
    && (forall i, j :: 0 <= i < j < |list| && list[i] != INTERVAL_DROPPED && list[j] != INTERVAL_DROPPED ==> list[i] < list[j])
  }

  // ---------------------------------------------------------------------
  // Cluster collapse (js/PatternFinder.js:104-137)
  // ---------------------------------------------------------------------

  /** Occurrence i of the pattern as the interval [list[i], list[i] + offset]. */
  function Occurrences(list: seq<int>, offset: int): (occ: seq<Interval>)
    ensures |occ| == |list|
    ensures forall i {:trigger occ[i]} :: 0 <= i < |list| ==> occ[i] == Interval(list[i], list[i] + offset)
  {
    seq(|list|, i requires 0 <= i < |list| => Interval(list[i], list[i] + offset))
  }

  /** nextInCluster: the next start is at most `offset` further on (equality included). */
  predicate NextInCluster(list: seq<int>, offset: int, i: int)
    requires 0 <= i < |list|
  {
    i + 1 < |list| && list[i + 1] - list[i] <= offset
  }

  /** A start is dropped when it belongs to a cluster: it is close to its predecessor or its successor. */
  predicate Clustered(list: seq<int>, offset: int, i: int)
    requires 0 <= i < |list|
  {
    (i > 0 && NextInCluster(list, offset, i - 1)) || NextInCluster(list, offset, i)
  }

  /** The list after collapse: clustered starts become INTERVAL_DROPPED, isolated ones stay. */
  function Survivors(list: seq<int>, offset: int): (r: seq<int>)
    ensures |r| == |list|
    ensures forall i {:trigger r[i]} :: 0 <= i < |list| ==> r[i] == if Clustered(list, offset, i) then INTERVAL_DROPPED else list[i]
  {
    seq(|list|, i requires 0 <= i < |list| => if Clustered(list, offset, i) then INTERVAL_DROPPED else list[i])
  }

  /**
   * What the cluster loop has still to emit at position i: the rest of the
   * open cluster started at `start`, if any, then the later runs.
   */
  ghost function Pending(occ: seq<Interval>, i: nat, inCluster: bool, start: int): seq<Interval>
    requires i <= |occ| && (inCluster ==> i < |occ|)
  {
    if inCluster then [Interval(start, occ[RunEnd(occ, i)].hi)] + SquishFrom(occ, RunEnd(occ, i) + 1)
    else SquishFrom(occ, i)
  }

  /** A step of the cluster loop where the next start joins the run: nothing is emitted. */
  lemma ClusterStepJoin(occ: seq<Interval>, i: nat, inCluster: bool, start: int)
    requires i + 1 < |occ| && Touches(occ, i)
    ensures Pending(occ, i, inCluster, start) == Pending(occ, i + 1, true, if inCluster then start else occ[i].lo)
  {
    assert RunEnd(occ, i) == RunEnd(occ, i + 1);
  }

  /** A step of the cluster loop where the run ends here: the run's interval is emitted. */
  lemma ClusterStepClose(occ: seq<Interval>, i: nat, inCluster: bool, start: int)
    requires i < |occ| && !(i + 1 < |occ| && Touches(occ, i))
    ensures Pending(occ, i, inCluster, start)
      == [if inCluster then Interval(start, occ[i].hi) else occ[i]] + Pending(occ, i + 1, false, start)
  {
    assert RunEnd(occ, i) == i;
  }

  /** The interval one step of the cluster loop emits, if any. */
  function ClusterEmit(inCluster: bool, next: bool, start: int, s: int, offset: int): seq<Interval>
  {
    if !inCluster && !next then [Interval(s, s + offset)]
    else if inCluster && !next then [Interval(start, s + offset)]
    else []
  }

  /** One step of the cluster loop keeps what is emitted plus what is pending equal to the squished occurrences. */
  lemma ClusterAdvance(l0: seq<int>, offset: int, i: nat, inCluster: bool, start: int, intervals: seq<Interval>, next: bool)
    requires i < |l0| && next == NextInCluster(l0, offset, i)
    requires inCluster == (i > 0 && NextInCluster(l0, offset, i - 1))
    ensures var occ := Occurrences(l0, offset);
      var start' := if !inCluster && next then l0[i] else start;
      intervals + Pending(occ, i, inCluster, start)
        == (intervals + ClusterEmit(inCluster, next, start, l0[i], offset)) + Pending(occ, i + 1, next, start')
    ensures Span(intervals + ClusterEmit(inCluster, next, start, l0[i], offset))
        == Span(intervals) + Span(ClusterEmit(inCluster, next, start, l0[i], offset))
    ensures Survivors(l0, offset)[i] == if inCluster || next then INTERVAL_DROPPED else l0[i]
  {
    var occ := Occurrences(l0, offset);
    var emit := ClusterEmit(inCluster, next, start, l0[i], offset);
    assert occ[i] == Interval(l0[i], l0[i] + offset);
    if next {
      ClusterStepJoin(occ, i, inCluster, start);
      assert emit == [];
    } else {
      ClusterStepClose(occ, i, inCluster, start);
      var rest := Pending(occ, i + 1, false, start);
      assert intervals + (emit + rest) == (intervals + emit) + rest;
    }
    SpanConcat(intervals, emit);
  }

  /**
   * The body of the cluster loop at position `i`: decides whether the next
   * start is in the same cluster, emits the interval that closes here, if
   * any, and marks `list[i]` dropped when it belongs to a cluster.
   */
  method ClusterVisit(list: array<int>, offset: int, i: nat, inCluster: bool, start: int, intervals: seq<Interval>, span: int)
    returns (nextInCluster: bool, start': int, intervals': seq<Interval>, span': int)
    requires i < list.Length
    modifies list
    ensures nextInCluster == NextInCluster(old(list[..]), offset, i)
    ensures start' == if !inCluster && nextInCluster then old(list[i]) else start
    ensures intervals' == intervals + ClusterEmit(inCluster, nextInCluster, start, old(list[i]), offset)
    ensures span' == span + Span(ClusterEmit(inCluster, nextInCluster, start, old(list[i]), offset))
    ensures list[..] == old(list[..])[i := if inCluster || nextInCluster then INTERVAL_DROPPED else old(list[i])]
  {
    nextInCluster := false;
    if i + 1 < list.Length {
      nextInCluster := list[i + 1] - list[i] <= offset;
    }
    start', intervals', span' := start, intervals, span;
    if !inCluster && !nextInCluster {
      var cur := Interval(list[i], list[i] + offset);
      intervals' := intervals' + [cur];
      span' := span' + (cur.hi - cur.lo);
    }
    if !inCluster && nextInCluster {
      start' := list[i];
    } else if inCluster && !nextInCluster {
      var cur := Interval(start, list[i] + offset);
      intervals' := intervals' + [cur];
      span' := span' + (cur.hi - cur.lo);
    }
    if inCluster || nextInCluster {
      list[i] := INTERVAL_DROPPED;
    }
  }

  /**
   * The cluster loop, in place: one interval per maximal run of starts each
   * within `offset` of the next, [first, last + offset]; an isolated start
   * gives [s, s + offset]. These are exactly the squished occurrences.
   */
  method ClusterOccurrences(list: array<int>, offset: int) returns (intervals: seq<Interval>, span: int)
    modifies list
    ensures intervals == Squish(Occurrences(old(list[..]), offset))
    ensures span == Span(intervals)
    ensures list[..] == Survivors(old(list[..]), offset)
  {
    ghost var l0 := list[..];
    ghost var occ := Occurrences(l0, offset);
    ghost var surv := Survivors(l0, offset);
    intervals, span := [], 0;
    var inCluster := false;
    var start := 0;
    var i := 0;
    while i < list.Length
      invariant 0 <= i <= list.Length
      invariant forall j :: 0 <= j < i ==> list[j] == surv[j]
      invariant forall j :: i <= j < list.Length ==> list[j] == l0[j]
      invariant inCluster == (i > 0 && NextInCluster(l0, offset, i - 1))
      invariant inCluster ==> i < list.Length
      invariant intervals + Pending(occ, i, inCluster, start) == Squish(occ)
      invariant span == Span(intervals)
      decreases list.Length - i
    {
      assert list[i] == l0[i];
      assert i + 1 < list.Length ==> list[i + 1] == l0[i + 1];
      ghost var start0, intervals0 := start, intervals;
      var nextInCluster;
      nextInCluster, start, intervals, span := ClusterVisit(list, offset, i, inCluster, start, intervals, span);
      ClusterAdvance(l0, offset, i, inCluster, start0, intervals0, nextInCluster);
      inCluster := nextInCluster;
      i := i + 1;
    }
    assert list[..] == surv;
  }

  // ---------------------------------------------------------------------
  // Extension and partition (js/PatternFinder.js:142-170)
  // ---------------------------------------------------------------------

  /**
   * The (key, start) pairs pushed into the partition map: dropped starts are
   * skipped, and so is a start at height 0 whose next event is an exit; the
   * key is the event right after the body.
   */
  function Extension(t: seq<Event>, offset: int, depth: int, list: seq<int>): seq<(Event, int)>
    requires forall i :: 0 <= i < |list| ==> list[i] == INTERVAL_DROPPED || Good(t, offset, depth, list[i])
  {
    if |list| == 0 then []
    else
      var s := list[|list| - 1];
      assert s == INTERVAL_DROPPED || Good(t, offset, depth, s);
      Extension(t, offset, depth, list[..|list| - 1]) +
      (if s == INTERVAL_DROPPED || (depth == 0 && t[s + offset + 1].Exit?) then []
       else [(t[s + offset + 1], s)])
  }

  /** The partition map: child lists keyed by the next event, in first-appearance order. */
  function Partition(t: seq<Event>, offset: int, depth: int, list: seq<int>): seq<(Event, seq<int>)>
    requires forall i :: 0 <= i < |list| ==> list[i] == INTERVAL_DROPPED || Good(t, offset, depth, list[i])
  {
    GroupByKey(Extension(t, offset, depth, list))
  }

  /** Every pushed pair is a good start, keyed by its next event, that does not leave its base frame. */
  /** One more start appends its pair, unless it is dropped or leaves the base frame. */
  lemma ExtensionSnoc(t: seq<Event>, offset: int, depth: int, list: seq<int>, n: nat)
    requires forall j :: 0 <= j < |list| ==> list[j] == INTERVAL_DROPPED || Good(t, offset, depth, list[j])
    requires 0 < n <= |list| && (list[n - 1] == INTERVAL_DROPPED || Good(t, offset, depth, list[n - 1]))
    ensures list[n - 1] == INTERVAL_DROPPED || (depth == 0 && t[list[n - 1] + offset + 1].Exit?) ==>
      Extension(t, offset, depth, list[..n]) == Extension(t, offset, depth, list[..n - 1])
    ensures !(list[n - 1] == INTERVAL_DROPPED || (depth == 0 && t[list[n - 1] + offset + 1].Exit?)) ==>
      Extension(t, offset, depth, list[..n]) == Extension(t, offset, depth, list[..n - 1]) + [(t[list[n - 1] + offset + 1], list[n - 1])]
  {
    assert list[..n][..n - 1] == list[..n - 1];
    var e := Extension(t, offset, depth, list[..n - 1]);
    assert e + [] == e;
  }

  /** One pass of the partition loop: a kept start that stays in its frame is pushed under its next event. */
  lemma PartitionStep(t: seq<Event>, offset: int, depth: int, list: seq<int>, i: nat, partition: seq<(Event, seq<int>)>)
    requires forall j :: 0 <= j < |list| ==> list[j] == INTERVAL_DROPPED || Good(t, offset, depth, list[j])
    requires i < |list| && partition == GroupByKey(Extension(t, offset, depth, list[..i]))
    ensures GroupByKey(Extension(t, offset, depth, list[..i + 1]))
      == if list[i] == INTERVAL_DROPPED || (depth == 0 && t[list[i] + offset + 1].Exit?) then partition
         else Insert(partition, t[list[i] + offset + 1], list[i])
  {
    ExtensionSnoc(t, offset, depth, list, i + 1);
    var ext0 := Extension(t, offset, depth, list[..i]);
    if !(list[i] == INTERVAL_DROPPED || (depth == 0 && t[list[i] + offset + 1].Exit?)) {
      var p := (t[list[i] + offset + 1], list[i]);
      assert (ext0 + [p])[..|ext0|] == ext0;
    }
  }

  /** Appending a pair whose start lies after every pushed start keeps the pushed pairs well formed. */
  lemma PushedSnoc(t: seq<Event>, offset: int, depth: int, pairs: seq<(Event, int)>, s: int)
    requires Pushed(t, offset, depth, pairs) && Good(t, offset, depth, s)
    requires !(depth == 0 && t[s + offset + 1].Exit?)
    requires forall p :: p in pairs ==> p.1 < s
    ensures Pushed(t, offset, depth, pairs + [(t[s + offset + 1], s)])
  {
    var e := pairs + [(t[s + offset + 1], s)];
    forall i, j | 0 <= i < j < |e| ensures e[i].1 < e[j].1 {
      if j == |pairs| {
        assert e[i] in pairs;
      } else {
        assert e[i] == pairs[i] && e[j] == pairs[j];
      }
    }
  }

  /** A start among the first n - 1 is among the first n, and below the n-th when both are kept. */
  lemma EarlierStart(t: seq<Event>, offset: int, depth: int, list: seq<int>, n: nat, x: int)
    requires MarkedInv(t, offset, depth, list) && 0 < n <= |list| && x in list[..n - 1]
    ensures x in list[..n]
    ensures x != INTERVAL_DROPPED && list[n - 1] != INTERVAL_DROPPED ==> x < list[n - 1]
  {
    var m :| 0 <= m < n - 1 && list[..n - 1][m] == x;
    assert list[..n][m] == x;
  }

  /** Every pair pushed for the first n starts carries one of those starts. */
  lemma {:induction false} ExtensionFrom(t: seq<Event>, offset: int, depth: int, list: seq<int>, n: nat)
    requires MarkedInv(t, offset, depth, list) && n <= |list|
    ensures forall p :: p in Extension(t, offset, depth, list[..n]) ==> p.1 in list[..n]
  {
    if n > 0 {
      var e0 := Extension(t, offset, depth, list[..n - 1]);
      ExtensionFrom(t, offset, depth, list, n - 1);
      ExtensionSnoc(t, offset, depth, list, n);
      forall p | p in e0 ensures p.1 in list[..n] {
        EarlierStart(t, offset, depth, list, n, p.1);
      }
      assert list[..n][n - 1] == list[n - 1];
    }
  }

  /** The pairs pushed for the first n starts: good starts under their next event, in ascending order. */
  lemma {:induction false} ExtensionPushed(t: seq<Event>, offset: int, depth: int, list: seq<int>, n: nat)
    requires MarkedInv(t, offset, depth, list) && n <= |list|
    ensures Pushed(t, offset, depth, Extension(t, offset, depth, list[..n]))
  {
    if n > 0 {
      ExtensionPushed(t, offset, depth, list, n - 1);
      ExtensionFrom(t, offset, depth, list, n - 1);
      PushedStep(t, offset, depth, list, n);
    }
  }

  /** One start more keeps the pushed pairs well formed. */
  lemma PushedStep(t: seq<Event>, offset: int, depth: int, list: seq<int>, n: nat)
    requires MarkedInv(t, offset, depth, list) && 0 < n <= |list|
    requires Pushed(t, offset, depth, Extension(t, offset, depth, list[..n - 1]))
    requires forall p :: p in Extension(t, offset, depth, list[..n - 1]) ==> p.1 in list[..n - 1]
    ensures Pushed(t, offset, depth, Extension(t, offset, depth, list[..n]))
  {
    var s := list[n - 1];
    var e0 := Extension(t, offset, depth, list[..n - 1]);
    ExtensionSnoc(t, offset, depth, list, n);
    if !(s == INTERVAL_DROPPED || (depth == 0 && t[s + offset + 1].Exit?)) {
      forall p | p in e0 ensures p.1 < s {
        EarlierStart(t, offset, depth, list, n, p.1);
      }
      PushedSnoc(t, offset, depth, e0, s);
    }
  }

  /** The pairs the partition receives: kept starts of the list, under their next event, in ascending order. */
  lemma ExtensionFacts(t: seq<Event>, offset: int, depth: int, list: seq<int>)
    requires MarkedInv(t, offset, depth, list)
    ensures Pushed(t, offset, depth, Extension(t, offset, depth, list))
    ensures forall p :: p in Extension(t, offset, depth, list) ==> p.1 in list
  {
    ExtensionPushed(t, offset, depth, list, |list|);
    ExtensionFrom(t, offset, depth, list, |list|);
    assert list[..|list|] == list;
  }

  /** A good start extended by one event that keeps it at height >= 0 stays good. */
  lemma ExtendGood(t: seq<Event>, offset: int, depth: int, s: int)
    requires Wrapped(t) && Good(t, offset, depth, s)
    requires depth + Delta(t[s + offset + 1]) >= 0
    ensures Good(t, offset + 1, depth + Delta(t[s + offset + 1]), s)
  {
    var body := t[s + 1..s + offset + 1];
    var e := t[s + offset + 1];
    assert t[s + 1..s + offset + 2] == body + [e];
    assert (body + [e])[..|body + [e]| - 1] == body;
    PrefixNonNegSnoc(body, e);
    WrappedSuffix(t, s);
    assert t[s + 1..|t|] == t[s + 1..];
  }

  /** The (key, start) pairs the partition receives, as ExtensionFacts describes them. */
  predicate Pushed(t: seq<Event>, offset: int, depth: int, pairs: seq<(Event, int)>)
  {
    && (forall p :: p in pairs ==> Good(t, offset, depth, p.1) && p.0 == t[p.1 + offset + 1] && !(depth == 0 && p.0.Exit?))
    && (forall i, j :: 0 <= i < j < |pairs| ==> pairs[i].1 < pairs[j].1)
  }

  lemma PushedGood(t: seq<Event>, offset: int, depth: int, pairs: seq<(Event, int)>, key: Event, v: int)
    requires Wrapped(t) && 0 <= depth && Pushed(t, offset, depth, pairs) && v in ValuesOf(pairs, key)
    ensures depth + Delta(key) >= 0 && Good(t, offset + 1, depth + Delta(key), v)
  {
    ValuesOfMember(pairs, key, v);
    assert (key, v) in pairs;
    ExtendGood(t, offset, depth, v);
  }

  /** The starts pushed under one key form a well-formed PointerList one event longer. */
  lemma ChildInv(t: seq<Event>, offset: int, depth: int, pairs: seq<(Event, int)>, key: Event)
    requires Wrapped(t) && 0 <= offset && 0 <= depth
    requires Pushed(t, offset, depth, pairs)
    requires |ValuesOf(pairs, key)| > 0
    ensures ListInv(t, offset + 1, depth + Delta(key), ValuesOf(pairs, key))
  {
    var g := ValuesOf(pairs, key);
    ValuesOfAscending(pairs, key);
    PushedGood(t, offset, depth, pairs, key, g[0]);
    forall m | 0 <= m < |g| ensures Good(t, offset + 1, depth + Delta(key), g[m]) {
      PushedGood(t, offset, depth, pairs, key, g[m]);
    }
  }

  /** A good start's body grows by the event after it. */
  lemma BodySnoc(t: seq<Event>, offset: int, depth: int, s: int)
    requires Good(t, offset, depth, s)
    ensures Body(t, offset + 1, s) == Body(t, offset, s) + [t[s + offset + 1]]
  {
    assert t[s + 1..s + offset + 2] == t[s + 1..s + offset + 1] + [t[s + offset + 1]];
  }

  /** Two kept starts of a collapsed list carry the same body. */
  lemma KeptShare(t: seq<Event>, offset: int, list: seq<int>, a: int, b: int)
    requires SharedBody(t, offset, list)
    requires a in list && b in list && a != INTERVAL_DROPPED && b != INTERVAL_DROPPED
    ensures Body(t, offset, a) == Body(t, offset, b)
  {
    var i :| 0 <= i < |list| && list[i] == a;
    var j :| 0 <= j < |list| && list[j] == b;
    if j < i {
      assert Body(t, offset, list[j]) == Body(t, offset, list[i]);
    } else if i < j {
      assert Body(t, offset, list[i]) == Body(t, offset, list[j]);
    }
  }

  /** The starts pushed under one key still share a body, now one event longer. */
  lemma ChildShared(t: seq<Event>, offset: int, depth: int, list: seq<int>, key: Event, g: seq<int>)
    requires MarkedInv(t, offset, depth, list) && SharedBody(t, offset, list) && g == ValuesOf(Extension(t, offset, depth, list), key)
    ensures SharedBody(t, offset + 1, g)
  {
    var pairs := Extension(t, offset, depth, list);
    ExtensionFacts(t, offset, depth, list);
    forall i, j | 0 <= i < j < |g|
      ensures Body(t, offset + 1, g[i]) == Body(t, offset + 1, g[j])
    {
      var a, b := g[i], g[j];
      ValuesOfMember(pairs, key, a);
      ValuesOfMember(pairs, key, b);
      assert a in list && Good(t, offset, depth, a) && t[a + offset + 1] == key;
      assert b in list && Good(t, offset, depth, b) && t[b + offset + 1] == key;
      KeptShare(t, offset, list, a, b);
      BodySnoc(t, offset, depth, a);
      BodySnoc(t, offset, depth, b);
    }
  }

  /** Every child list of the partition is again a well-formed PointerList one event longer. */
  lemma PartitionChildren(t: seq<Event>, offset: int, depth: int, list: seq<int>)
    requires MarkedInv(t, offset, depth, list)
    ensures forall i :: 0 <= i < |Partition(t, offset, depth, list)| ==>
      ListInv(t, offset + 1, depth + Delta(Partition(t, offset, depth, list)[i].0), Partition(t, offset, depth, list)[i].1)
  {
    var pairs := Extension(t, offset, depth, list);
    var gs := Partition(t, offset, depth, list);
    ExtensionFacts(t, offset, depth, list);
    GroupByKeySpec(pairs);
    forall i | 0 <= i < |gs|
      ensures ListInv(t, offset + 1, depth + Delta(gs[i].0), gs[i].1)
    {
      assert gs[i].1 == ValuesOf(pairs, gs[i].0) && |gs[i].1| > 0;
      ChildInv(t, offset, depth, pairs, gs[i].0);
    }
  }

  /** Every child list of the partition shares one body, one event longer than the parent's. */
  lemma PartitionShared(t: seq<Event>, offset: int, depth: int, list: seq<int>)
    requires MarkedInv(t, offset, depth, list) && SharedBody(t, offset, list)
    ensures forall i :: 0 <= i < |Partition(t, offset, depth, list)| ==>
      SharedBody(t, offset + 1, Partition(t, offset, depth, list)[i].1)
  {
    var pairs := Extension(t, offset, depth, list);
    var gs := Partition(t, offset, depth, list);
    GroupByKeySpec(pairs);
    forall i | 0 <= i < |gs|
      ensures SharedBody(t, offset + 1, gs[i].1)
    {
      ChildShared(t, offset, depth, list, gs[i].0, gs[i].1);
    }
  }

  /** Cluster collapse only drops starts, so the kept ones still share the body. */
  lemma SurvivorsShared(t: seq<Event>, offset: int, list: seq<int>)
    requires SharedBody(t, offset, list)
    ensures SharedBody(t, offset, Survivors(list, offset))
  {
    var r := Survivors(list, offset);
    forall i, j | 0 <= i < j < |r| && r[i] != INTERVAL_DROPPED && r[j] != INTERVAL_DROPPED
      ensures Body(t, offset, r[i]) == Body(t, offset, r[j])
    {
      assert r[i] == list[i] && r[j] == list[j];
    }
  }

  /** Collapse keeps a well-formed list well-formed, up to the dropped markers. */
  lemma SurvivorsMarked(t: seq<Event>, offset: int, depth: int, list: seq<int>)
    requires ListInv(t, offset, depth, list)
    ensures MarkedInv(t, offset, depth, Survivors(list, offset))
    ensures MarkedInv(t, offset, depth, list)
  {
  }

  // ---------------------------------------------------------------------
  // The recursion (js/PatternFinder.js:81-257)
  // ---------------------------------------------------------------------

  /** Array.prototype.sort by start: a stable insertion of x after every interval starting no later. */
  function InsertByLo(x: Interval, s: seq<Interval>): seq<Interval>
  {
    if |s| == 0 then [x] else if x.lo < s[0].lo then [x] + s else [s[0]] + InsertByLo(x, s[1..])
  }

  function SortByLo(s: seq<Interval>): seq<Interval>
  {
    if |s| == 0 then [] else InsertByLo(s[|s| - 1], SortByLo(s[..|s| - 1]))
  }

  /** The acceptance rule intersectSpan / patternSpan < 0.75, with the ratio cross-multiplied. */
  predicate Accepted(inter: int, span: int)
  {
    4 * inter < 3 * span
  }

  /** One call of processPointerList on a well-formed list. */
  function Process(t: seq<Event>, offset: int, depth: int, list: seq<int>): Outcome
    requires ListInv(t, offset, depth, list)
    decreases MAX_PATTERN_LENGTH + 1 - offset, 3, 0
  {
    if |list| <= 1 || offset > MAX_PATTERN_LENGTH then Outcome([], [])
    else if depth == 0 && offset >= MIN_PATTERN_LENGTH then PatternCase(t, offset, list)
    else
      SurvivorsMarked(t, offset, depth, list);
      Extend(t, offset, depth, list)
  }

  /**
   * A list whose body is a complete call stack: collapse its clusters,
   * extend the surviving starts, and record the pattern when under three
   * quarters of its occurrences' span is covered by what extends it.
   */
  function PatternCase(t: seq<Event>, offset: int, list: seq<int>): Outcome
    requires ListInv(t, offset, 0, list) && 0 <= offset <= MAX_PATTERN_LENGTH && |list| > 0
    decreases MAX_PATTERN_LENGTH + 1 - offset, 2, 0
  {
    var own := Squish(Occurrences(list, offset));
    SurvivorsMarked(t, offset, 0, list);
    var kids := Extend(t, offset, 0, Survivors(list, offset));
    var ext := Squish(SortByLo(kids.intervals));
    var frame := PatternFrame(list[0], list[0] + offset, |list|);
    Outcome(kids.frames + (if Accepted(IntersectLength(own, ext), Span(own)) then [frame] else []), ext + own)
  }

  /** Extension and partition of the kept starts, then every child list processed in the partition's order. */
  function Extend(t: seq<Event>, offset: int, depth: int, list: seq<int>): Outcome
    requires MarkedInv(t, offset, depth, list) && offset <= MAX_PATTERN_LENGTH
    decreases MAX_PATTERN_LENGTH + 1 - offset, 1, 0
  {
    PartitionChildren(t, offset, depth, list);
    var p := Partition(t, offset, depth, list);
    ProcessGroups(t, offset, depth, p, |p|)
  }

  /** The first n children of one list, processed in the partition's order, their results concatenated. */
  function ProcessGroups(t: seq<Event>, offset: int, depth: int, gs: seq<(Event, seq<int>)>, n: nat): Outcome
    requires 0 <= offset <= MAX_PATTERN_LENGTH && n <= |gs|
    requires forall i :: 0 <= i < |gs| ==> ListInv(t, offset + 1, depth + Delta(gs[i].0), gs[i].1)
    decreases MAX_PATTERN_LENGTH + 1 - offset, 0, n
  {
    if n == 0 then Outcome([], [])
    else
      var prev := ProcessGroups(t, offset, depth, gs, n - 1);
      var r := Process(t, offset + 1, depth + Delta(gs[n - 1].0), gs[n - 1].1);
      Outcome(prev.frames + r.frames, prev.intervals + r.intervals)
  }

  /** One step of the loop over the partition map: the frames recorded so far, then the k-th child's. */
  lemma ProcessGroupsStep(t: seq<Event>, offset: int, depth: int, gs: seq<(Event, seq<int>)>, k: nat, childDepth: int,
                          base: seq<PatternFrame>, frames: seq<PatternFrame>, intervals: seq<Interval>)
    requires 0 <= offset <= MAX_PATTERN_LENGTH && k < |gs|
    requires forall i :: 0 <= i < |gs| ==> ListInv(t, offset + 1, depth + Delta(gs[i].0), gs[i].1)
    requires childDepth == depth + Delta(gs[k].0)
    requires frames == base + ProcessGroups(t, offset, depth, gs, k).frames + Process(t, offset + 1, childDepth, gs[k].1).frames
    requires intervals == ProcessGroups(t, offset, depth, gs, k).intervals + Process(t, offset + 1, childDepth, gs[k].1).intervals
    ensures frames == base + ProcessGroups(t, offset, depth, gs, k + 1).frames
    ensures intervals == ProcessGroups(t, offset, depth, gs, k + 1).intervals
  {
    var done := ProcessGroups(t, offset, depth, gs, k).frames;
    var r := Process(t, offset + 1, childDepth, gs[k].1).frames;
    assert base + done + r == base + (done + r);
  }

  /** Off the pattern case a list's outcome is that of its extension. */
  lemma ProcessExtends(t: seq<Event>, offset: int, depth: int, list: seq<int>)
    requires ListInv(t, offset, depth, list) && |list| > 1 && offset <= MAX_PATTERN_LENGTH
    requires !(depth == 0 && offset >= MIN_PATTERN_LENGTH)
    ensures MarkedInv(t, offset, depth, list)
    ensures Process(t, offset, depth, list) == Extend(t, offset, depth, list)
  {
    SurvivorsMarked(t, offset, depth, list);
  }

  /** The pattern case as the method assembles it: cluster collapse, the survivors' extension, then the verdict. */
  lemma PatternCaseStep(t: seq<Event>, offset: int, list: seq<int>, cur: seq<Interval>, kids: Outcome, frame: PatternFrame,
                        base: seq<PatternFrame>, frames: seq<PatternFrame>, ext: seq<Interval>)
    requires ListInv(t, offset, 0, list) && |list| > 1 && MIN_PATTERN_LENGTH <= offset <= MAX_PATTERN_LENGTH
    requires MarkedInv(t, offset, 0, Survivors(list, offset))
    requires cur == Squish(Occurrences(list, offset))
    requires kids == Extend(t, offset, 0, Survivors(list, offset))
    requires frame == PatternFrame(list[0], list[0] + offset, |list|)
    requires frames == base + kids.frames
      + (if Accepted(IntersectLength(cur, Squish(SortByLo(kids.intervals))), Span(cur)) then [frame] else [])
    requires ext == Squish(SortByLo(kids.intervals)) + cur
    ensures frames == base + Process(t, offset, 0, list).frames
    ensures ext == Process(t, offset, 0, list).intervals
  {
    var mine := if Accepted(IntersectLength(cur, Squish(SortByLo(kids.intervals))), Span(cur)) then [frame] else [];
    assert Process(t, offset, 0, list) == PatternCase(t, offset, list);
    assert base + kids.frames + mine == base + (kids.frames + mine);
  }

  /** The first list: every index but the last, at offset 0 and height 0. */
  function AllStarts(t: seq<Event>): (list: seq<int>)
    requires |t| >= 1
    ensures |list| == |t| - 1 && forall i :: 0 <= i < |list| ==> list[i] == i
  {
    seq(|t| - 1, i => i)
  }

  lemma AllStartsInv(t: seq<Event>)
    requires Wrapped(t)
    ensures ListInv(t, 0, 0, AllStarts(t))
  {
    forall i | 0 <= i < |t| - 1 ensures Good(t, 0, 0, i) {
      var body := t[i + 1..i + 1];
      assert body == [] && body[..0] == body;
    }
  }

  /** The seed's bodies are all empty. */
  lemma AllStartsShared(t: seq<Event>)
    requires |t| >= 1
    ensures SharedBody(t, 0, AllStarts(t))
  {
    var list := AllStarts(t);
    forall i | 0 <= i < |list| ensures Body(t, 0, list[i]) == [] {
      assert Body(t, 0, list[i]) == t[i + 1..i + 1];
    }
  }

  /** findPatterns: everything recorded for a wrapped trace. */
  function Find(t: seq<Event>): Outcome
    requires Wrapped(t)
  {
    AllStartsInv(t);
    Process(t, 0, 0, AllStarts(t))
  }

  // ---------------------------------------------------------------------
  // The engine object
  // ---------------------------------------------------------------------

  class PatternFinder {
    var trace: seq<Event>
    var patternFrames: seq<PatternFrame>

    constructor ()
      ensures trace == [] && patternFrames == []
    {
      trace := [];
      patternFrames := [];
    }

    /** createTrace: wrap the raw trace in one root call and keep it. */
    method CreateTrace(rawTrace: seq<Event>) returns (t: seq<Event>)
      modifies this
      ensures t == trace == [Enter("root")] + rawTrace + [Exit("root")]
      ensures patternFrames == old(patternFrames)
    {
      var wrapped := [Enter("root")] + rawTrace;
      wrapped := wrapped + [Exit("root")];
      trace := wrapped;
      t := trace;
    }

    /** findPatterns: seed one list with every index but the last and process it. */
    method FindPatterns()
      requires Wrapped(trace)
      modifies this
      ensures trace == old(trace)
      ensures patternFrames == old(patternFrames) + Find(trace).frames
    {
      var list := new int[|trace| - 1](i => i);
      assert list[..] == AllStarts(trace);
      AllStartsInv(trace);
      var _ := ProcessPointerList(0, 0, list);
    }

    /** The partition loop: push each kept start under the event after its body. */
    method PartitionList(offset: int, stackDepth: int, list: array<int>) returns (partition: seq<(Event, seq<int>)>)
      requires MarkedInv(trace, offset, stackDepth, list[..])
      ensures partition == Partition(trace, offset, stackDepth, list[..])
    {
      ghost var t, l := trace, list[..];
      partition := [];
      var next := offset + 1;
      var i := 0;
      while i < list.Length
        invariant 0 <= i <= list.Length
        invariant partition == GroupByKey(Extension(t, offset, stackDepth, l[..i]))
        decreases list.Length - i
      {
        PartitionStep(t, offset, stackDepth, l, i, partition);
        assert list[i] == l[i];
        if list[i] != INTERVAL_DROPPED {
          var patternStart := list[i];
          var event := trace[patternStart + next];
          assert event == t[l[i] + offset + 1];
          if !(stackDepth == 0 && event.Exit?) {
            partition := Insert(partition, event, patternStart);
          }
        }
        i := i + 1;
      }
      assert l[..i] == l;
    }

    /** One child list, copied into a fresh array and processed. */
    method ProcessChild(offset: int, stackDepth: int, starts: seq<int>) returns (nextIntervals: seq<Interval>)
      requires ListInv(trace, offset, stackDepth, starts)
      modifies this
      ensures trace == old(trace)
      ensures patternFrames == old(patternFrames) + Process(trace, offset, stackDepth, starts).frames
      ensures nextIntervals == Process(trace, offset, stackDepth, starts).intervals
      decreases MAX_PATTERN_LENGTH + 1 - offset, 3, 0
    {
      var child := new int[|starts|](j requires 0 <= j < |starts| => starts[j]);
      assert child[..] == starts;
      nextIntervals := ProcessPointerList(offset, stackDepth, child);
    }

    /** One pass of the loop over the partition map: process the k-th child and append its intervals. */
    method ProcessGroupAt(offset: int, stackDepth: int, partition: seq<(Event, seq<int>)>, k: nat,
                          ghost base: seq<PatternFrame>, extended: seq<Interval>)
      returns (extended': seq<Interval>)
      requires 0 <= offset <= MAX_PATTERN_LENGTH && k < |partition|
      requires forall i :: 0 <= i < |partition| ==> ListInv(trace, offset + 1, stackDepth + Delta(partition[i].0), partition[i].1)
      requires patternFrames == base + ProcessGroups(trace, offset, stackDepth, partition, k).frames
      requires extended == ProcessGroups(trace, offset, stackDepth, partition, k).intervals
      modifies this
      ensures trace == old(trace)
      ensures patternFrames == base + ProcessGroups(trace, offset, stackDepth, partition, k + 1).frames
      ensures extended' == ProcessGroups(trace, offset, stackDepth, partition, k + 1).intervals
      decreases MAX_PATTERN_LENGTH + 1 - offset, 0, 0
    {
      ghost var t := trace;
      var key, starts := partition[k].0, partition[k].1;
      var newStackDepth := if key.Enter? then stackDepth + 1 else stackDepth - 1;
      assert newStackDepth == stackDepth + Delta(key);
      var nextIntervals := ProcessChild(offset + 1, newStackDepth, starts);
      extended' := extended + nextIntervals;
      ProcessGroupsStep(t, offset, stackDepth, partition, k, newStackDepth, base, patternFrames, extended');
    }

    /** The loop over the partition map: process each child list in turn and collect what it returns. */
    method ProcessPartition(offset: int, stackDepth: int, partition: seq<(Event, seq<int>)>) returns (extended: seq<Interval>)
      requires 0 <= offset <= MAX_PATTERN_LENGTH
      requires forall i :: 0 <= i < |partition| ==> ListInv(trace, offset + 1, stackDepth + Delta(partition[i].0), partition[i].1)
      modifies this
      ensures trace == old(trace)
      ensures patternFrames == old(patternFrames) + ProcessGroups(trace, offset, stackDepth, partition, |partition|).frames
      ensures extended == ProcessGroups(trace, offset, stackDepth, partition, |partition|).intervals
      decreases MAX_PATTERN_LENGTH + 1 - offset, 0, 1
    {
      ghost var t := trace;
      extended := [];
      var k := 0;
      while k < |partition|
        invariant 0 <= k <= |partition|
        invariant trace == t
        invariant patternFrames == old(patternFrames) + ProcessGroups(t, offset, stackDepth, partition, k).frames
        invariant extended == ProcessGroups(t, offset, stackDepth, partition, k).intervals
        decreases |partition| - k
      {
        extended := ProcessGroupAt(offset, stackDepth, partition, k, old(patternFrames), extended);
        k := k + 1;
      }
    }

    /** The extension and partition loop followed by the loop over the partition map. */
    method ExtendList(offset: int, stackDepth: int, list: array<int>) returns (extended: seq<Interval>)
      requires MarkedInv(trace, offset, stackDepth, list[..]) && offset <= MAX_PATTERN_LENGTH
      modifies this
      ensures trace == old(trace)
      ensures patternFrames == old(patternFrames) + Extend(trace, offset, stackDepth, list[..]).frames
      ensures extended == Extend(trace, offset, stackDepth, list[..]).intervals
      decreases MAX_PATTERN_LENGTH + 1 - offset, 1, 0
    {
      var partition := PartitionList(offset, stackDepth, list);
      PartitionChildren(trace, offset, stackDepth, list[..]);
      extended := ProcessPartition(offset, stackDepth, partition);
    }

    /**
     * The end of a pattern's call: sort and merge what extends it, measure
     * how much of its own occurrences that covers, record it when under
     * three quarters, and return the merged intervals followed by its own.
     */
    method ConcludePattern(patternFrame: PatternFrame, curPatternIntervals: seq<Interval>, patternSpan: int,
                           extendedPatternIntervals: seq<Interval>)
      returns (extended: seq<Interval>)
      requires patternSpan == Span(curPatternIntervals)
      modifies this
      ensures trace == old(trace)
      ensures var merged := Squish(SortByLo(extendedPatternIntervals));
        && patternFrames == old(patternFrames)
             + (if Accepted(IntersectLength(curPatternIntervals, merged), Span(curPatternIntervals)) then [patternFrame] else [])
        && extended == merged + curPatternIntervals
    {
      var sorted := SortByLo(extendedPatternIntervals);
      var merged := SquishIntervals(sorted);
      var intersect := IntersectSpan(curPatternIntervals, merged);
      if 4 * intersect < 3 * patternSpan {
        patternFrames := patternFrames + [patternFrame];
      }
      extended := merged + curPatternIntervals;
    }

    /** processPointerList: record the patterns below this list and return their intervals. */
    method ProcessPointerList(offset: int, stackDepth: int, list: array<int>) returns (extended: seq<Interval>)
      requires ListInv(trace, offset, stackDepth, list[..])
      modifies this, list
      ensures trace == old(trace)
      ensures patternFrames == old(patternFrames) + Process(trace, offset, stackDepth, old(list[..])).frames
      ensures extended == Process(trace, offset, stackDepth, old(list[..])).intervals
      decreases MAX_PATTERN_LENGTH + 1 - offset, 2, 0
    {
      if list.Length <= 1 || offset > MAX_PATTERN_LENGTH {
        return [];
      }
      ghost var l0 := list[..];
      var isPattern := stackDepth == 0 && offset >= MIN_PATTERN_LENGTH;
      var patternFrame := PatternFrame(list[0], list[0] + offset, list.Length);
      assert patternFrame == PatternFrame(l0[0], l0[0] + offset, |l0|);
      var curPatternIntervals: seq<Interval> := [];
      var patternSpan := 0;
      SurvivorsMarked(trace, offset, stackDepth, l0);
      if isPattern {
        curPatternIntervals, patternSpan := ClusterOccurrences(list, offset);
      }
      ghost var frames0 := patternFrames;
      extended := ExtendList(offset, stackDepth, list);
      if isPattern {
        ghost var kids := Extend(trace, offset, 0, Survivors(l0, offset));
        extended := ConcludePattern(patternFrame, curPatternIntervals, patternSpan, extended);
        PatternCaseStep(trace, offset, l0, curPatternIntervals, kids, patternFrame, frames0, patternFrames, extended);
      } else {
        ProcessExtends(trace, offset, stackDepth, l0);
      }
    }
  }
}
