/**
 * The partial-pattern filter (js/filters/PartialPatternFilter.js). Every
 * frame is read whole and from each inner split point; all readings advance
 * one offset at a time and are partitioned by the trace line at
 * partialStart + offset. A whole reading that runs past its frame's length
 * has completed; its frame is dropped when a different reading of the same
 * list has intervals containing its own.
 */
module PartialPattern {
  import opened Intervals
  import opened Events
  import opened Grouping
  import opened Frames

  /**
   * A frame, by its place in the frame list, read from partialStart; whole
   * when read from its start. id is the reading's place in the filter's
   * list of readings and stands for its object identity.
   */
  datatype PartialPattern = PartialPattern(id: nat, frame: nat, length: int, partialStart: int, whole: bool)

  // ---------------------------------------------------------------------
  // createPartialPatterns (js/filters/PartialPatternFilter.js:18-44)
  // ---------------------------------------------------------------------

  /** Every line the inner loop of createPartialPatterns reads, trace[start + 1..end - 1], lies in the trace. */
  predicate Scannable(t: seq<Event>, f: Frame)
  {
    Length(f) <= 1 || (-1 <= f.start && f.end <= |t|)
  }

  predicate AllScannable(t: seq<Event>, fs: seq<Frame>)
  {
    forall k :: 0 <= k < |fs| ==> Scannable(t, fs[k])
  }

  /** The last inner split point the loop looks at (none below 1). */
  function InnerEnd(f: Frame): nat
  {
    if Length(f) <= 1 then 0 else Length(f) - 1
  }

  /** The stack height over body positions 1..i. */
  function InnerDepth(t: seq<Event>, f: Frame, i: nat): int
    requires Scannable(t, f) && i <= InnerEnd(f)
  {
    if i == 0 then 0 else Depth(t[f.start + 1..f.start + i + 1])
  }

  /** An inner split point: body positions 1..i, short of the whole body, are a complete call stack. */
  predicate InnerSplit(t: seq<Event>, f: Frame, i: nat)
    requires Scannable(t, f) && i <= InnerEnd(f)
  {
    1 <= i && InnerDepth(t, f, i) == 0
  }

  /** The readings of frame k from its inner split points 1..i, numbered from id0. */
  function Inner(t: seq<Event>, fs: seq<Frame>, k: nat, i: nat, id0: nat): (r: seq<PartialPattern>)
    requires k < |fs| && Scannable(t, fs[k]) && i <= InnerEnd(fs[k])
    ensures forall j :: 0 <= j < |r| ==> r[j].id == id0 + j
    ensures forall j :: 0 <= j < |r| ==> r[j].frame == k && r[j].length == Length(fs[k]) && !r[j].whole && 1 <= r[j].partialStart <= i
  {
    if i == 0 then []
    else
      var pre := Inner(t, fs, k, i - 1, id0);
      pre + (if InnerSplit(t, fs[k], i) then [PartialPattern(id0 + |pre|, k, Length(fs[k]), i, false)] else [])
  }

  /** The readings of frame k: the whole one first, then one per inner split point. */
  function FrameReadings(t: seq<Event>, fs: seq<Frame>, k: nat, id0: nat): (r: seq<PartialPattern>)
    requires k < |fs| && Scannable(t, fs[k])
    ensures forall j :: 0 <= j < |r| ==> r[j].id == id0 + j
  {
    [PartialPattern(id0, k, Length(fs[k]), 0, true)] + Inner(t, fs, k, InnerEnd(fs[k]), id0 + 1)
  }

  /** A frame's readings all belong to it: the whole one at 0 first, then partial ones starting strictly inside the body. */
  lemma FrameReadingsShape(t: seq<Event>, fs: seq<Frame>, k: nat, id0: nat)
    requires k < |fs| && Scannable(t, fs[k])
    ensures var r := FrameReadings(t, fs, k, id0);
      && |r| > 0 && r[0].whole && r[0].partialStart == 0
      && (forall j :: 0 <= j < |r| ==> r[j].frame == k && r[j].length == Length(fs[k]))
      && (forall j :: 1 <= j < |r| ==> !r[j].whole && 1 <= r[j].partialStart < Max(Length(fs[k]), 1))
  {
    var inner := Inner(t, fs, k, InnerEnd(fs[k]), id0 + 1);
    assert FrameReadings(t, fs, k, id0)[1..] == inner;
  }

  /** The readings of the first n frames, frame by frame, numbered from id0. */
  function Partials(t: seq<Event>, fs: seq<Frame>, n: nat, id0: nat): seq<PartialPattern>
    requires n <= |fs| && AllScannable(t, fs)
  {
    if n == 0 then []
    else
      var pre := Partials(t, fs, n - 1, id0);
      pre + FrameReadings(t, fs, n - 1, id0 + |pre|)
  }

  lemma ReadingsAssoc(a: seq<PartialPattern>, b: seq<PartialPattern>, c: seq<PartialPattern>)
    ensures a + b + c == a + (b + c)
  {
  }

  /** One pass of the inner loop of createPartialPatterns. */
  lemma ScanStep(t: seq<Event>, f: Frame, i: nat)
    requires Scannable(t, f) && 1 <= i <= InnerEnd(f)
    ensures InnerDepth(t, f, i) == InnerDepth(t, f, i - 1) + Delta(t[f.start + i])
  {
    var s := t[f.start + 1..f.start + i + 1];
    assert s[..|s| - 1] == t[f.start + 1..f.start + i];
    assert s[|s| - 1] == t[f.start + i];
    assert Depth(s) == Depth(s[..|s| - 1]) + Delta(t[f.start + i]);
    if i == 1 {
      assert Depth(s[..|s| - 1]) == 0;
    }
  }

  // ---------------------------------------------------------------------
  // filterR (js/filters/PartialPatternFilter.js:60-94) as a function of the reading list
  // ---------------------------------------------------------------------

  /** A reading names a frame of fs, starts inside the trace's index range and is no longer than the bound. */
  predicate Staged(fs: seq<Frame>, p: PartialPattern, bound: nat)
  {
    p.frame < |fs| && 0 <= p.partialStart && p.length <= bound
  }

  predicate AllStaged(fs: seq<Frame>, list: seq<PartialPattern>, bound: nat)
  {
    forall i :: 0 <= i < |list| ==> Staged(fs, list[i], bound)
  }

  /** The readings are numbered by their place in the list: no two share an id. */
  lemma {:induction false} PartialsIds(t: seq<Event>, fs: seq<Frame>, n: nat, id0: nat)
    requires n <= |fs| && AllScannable(t, fs)
    ensures forall j :: 0 <= j < |Partials(t, fs, n, id0)| ==> Partials(t, fs, n, id0)[j].id == id0 + j
  {
    if n > 0 {
      PartialsIds(t, fs, n - 1, id0);
    }
  }

  /** Every reading createPartialPatterns makes is staged for the first call. */
  lemma {:induction false} PartialsStaged(t: seq<Event>, fs: seq<Frame>, n: nat, id0: nat)
    requires n <= |fs| && AllScannable(t, fs)
    ensures AllStaged(fs, Partials(t, fs, n, id0), MaxLength(fs))
  {
    if n > 0 {
      var pre := Partials(t, fs, n - 1, id0);
      PartialsStaged(t, fs, n - 1, id0);
      var mine := FrameReadings(t, fs, n - 1, id0 + |pre|);
      var inner := Inner(t, fs, n - 1, InnerEnd(fs[n - 1]), id0 + |pre| + 1);
      assert mine == [mine[0]] + inner;
      assert forall j :: 0 <= j < |mine| ==> Staged(fs, mine[j], MaxLength(fs)) by {
        assert forall j :: 0 < j < |mine| ==> mine[j] == inner[j - 1];
      }
      assert Partials(t, fs, n, id0) == pre + mine;
    }
  }

  /** The scan up to position i makes a partial reading at s iff s is an inner split point no later than i. */
  lemma {:induction false} InnerMeaning(t: seq<Event>, fs: seq<Frame>, k: nat, i: nat, id0: nat, s: nat)
    requires k < |fs| && Scannable(t, fs[k]) && i <= InnerEnd(fs[k])
    ensures (exists p :: p in Inner(t, fs, k, i, id0) && p.partialStart == s) <==> 1 <= s <= i && InnerSplit(t, fs[k], s)
  {
    if i > 0 {
      InnerMeaning(t, fs, k, i - 1, id0, s);
      var pre := Inner(t, fs, k, i - 1, id0);
      if InnerSplit(t, fs[k], i) {
        var p := PartialPattern(id0 + |pre|, k, Length(fs[k]), i, false);
        assert Inner(t, fs, k, i, id0) == pre + [p];
      } else {
        assert Inner(t, fs, k, i, id0) == pre;
      }
    }
  }

  /** The list holds a whole reading of frame k. */
  ghost predicate HasWhole(list: seq<PartialPattern>, k: nat)
  {
    exists p :: p in list && p.frame == k && p.whole
  }

  /** The list holds a partial reading of frame k starting at s. */
  ghost predicate HasPartial(list: seq<PartialPattern>, k: nat, s: nat)
  {
    exists p :: p in list && p.frame == k && !p.whole && p.partialStart == s
  }

  /** A whole or partial reading is in a + b exactly when it is in a or in b. */
  lemma HasConcat(a: seq<PartialPattern>, b: seq<PartialPattern>, k: nat, s: nat)
    ensures HasWhole(a + b, k) <==> HasWhole(a, k) || HasWhole(b, k)
    ensures HasPartial(a + b, k, s) <==> HasPartial(a, k, s) || HasPartial(b, k, s)
  {
    if HasWhole(a + b, k) {
      var p :| p in a + b && p.frame == k && p.whole;
    }
    if HasPartial(a + b, k, s) {
      var p :| p in a + b && p.frame == k && !p.whole && p.partialStart == s;
    }
  }

  /** s is a point where createPartialPatterns starts a partial reading of f: an inner split point short of its length. */
  predicate SplitPoint(t: seq<Event>, f: Frame, s: nat)
    requires Scannable(t, f)
  {
    1 <= s <= InnerEnd(f) && InnerSplit(t, f, s)
  }

  /** A frame's readings: one whole reading of it, and a partial one at s exactly when s is a split point of it. */
  lemma FrameReadingsMeaning(t: seq<Event>, fs: seq<Frame>, k: nat, id0: nat, j: nat, s: nat)
    requires k < |fs| && Scannable(t, fs[k])
    ensures HasWhole(FrameReadings(t, fs, k, id0), j) <==> j == k
    ensures HasPartial(FrameReadings(t, fs, k, id0), j, s) <==> j == k && SplitPoint(t, fs[k], s)
  {
    var r := FrameReadings(t, fs, k, id0);
    var inner := Inner(t, fs, k, InnerEnd(fs[k]), id0 + 1);
    HasConcat([r[0]], inner, j, s);
    assert HasWhole([r[0]], j) <==> j == k by {
      assert r[0] in [r[0]];
    }
    assert !HasPartial([r[0]], j, s);
    InnerReadings(t, fs, k, id0 + 1, j, s);
  }

  /** The scan of frame k makes no whole reading, and a partial one of frame j at s exactly when j is k and s a split point of it. */
  lemma InnerReadings(t: seq<Event>, fs: seq<Frame>, k: nat, id0: nat, j: nat, s: nat)
    requires k < |fs| && Scannable(t, fs[k])
    ensures !HasWhole(Inner(t, fs, k, InnerEnd(fs[k]), id0), j)
    ensures HasPartial(Inner(t, fs, k, InnerEnd(fs[k]), id0), j, s) <==> j == k && SplitPoint(t, fs[k], s)
  {
    var inner := Inner(t, fs, k, InnerEnd(fs[k]), id0);
    forall p | p in inner
      ensures p.frame == k && !p.whole
    {
      var i :| 0 <= i < |inner| && inner[i] == p;
    }
    InnerMeaning(t, fs, k, InnerEnd(fs[k]), id0, s);
    if p :| p in inner && p.frame == j && !p.whole && p.partialStart == s {
      var i :| 0 <= i < |inner| && inner[i] == p;
    }
    if j == k && SplitPoint(t, fs[k], s) {
      var p :| p in inner && p.partialStart == s;
      var i :| 0 <= i < |inner| && inner[i] == p;
    }
  }

  /** createPartialPatterns makes a whole reading of frame k exactly when k is one of the first n frames. */
  lemma PartialsWhole(t: seq<Event>, fs: seq<Frame>, n: nat, id0: nat, k: nat)
    requires n <= |fs| && AllScannable(t, fs) && k < |fs|
    ensures HasWhole(Partials(t, fs, n, id0), k) <==> k < n
  {
    WholeOnlyIf(t, fs, n, id0, k);
    if k < n {
      WholeIf(t, fs, n, id0, k);
    }
  }

  /** The first n frames' readings hold no whole reading of a later frame. */
  lemma {:induction false} WholeOnlyIf(t: seq<Event>, fs: seq<Frame>, n: nat, id0: nat, k: nat)
    requires n <= |fs| && AllScannable(t, fs) && k < |fs|
    ensures HasWhole(Partials(t, fs, n, id0), k) ==> k < n
  {
    if n > 0 {
      WholeOnlyIf(t, fs, n - 1, id0, k);
      var pre := Partials(t, fs, n - 1, id0);
      var mine := FrameReadings(t, fs, n - 1, id0 + |pre|);
      HasConcat(pre, mine, k, 0);
      FrameReadingsMeaning(t, fs, n - 1, id0 + |pre|, k, 0);
    }
  }

  /** The first n frames' readings hold a whole reading of each of them. */
  lemma {:induction false} WholeIf(t: seq<Event>, fs: seq<Frame>, n: nat, id0: nat, k: nat)
    requires n <= |fs| && AllScannable(t, fs) && k < n
    ensures HasWhole(Partials(t, fs, n, id0), k)
  {
    var pre := Partials(t, fs, n - 1, id0);
    var mine := FrameReadings(t, fs, n - 1, id0 + |pre|);
    var all := pre + mine;
    if k == n - 1 {
      assert mine[0] in all;
    } else {
      WholeIf(t, fs, n - 1, id0, k);
      var p :| p in pre && p.frame == k && p.whole;
      assert p in all;
    }
  }

  /** Which partial readings a frame has does not depend on the ids they are numbered from. */
  lemma FrameReadingsRenumbered(t: seq<Event>, fs: seq<Frame>, k: nat, id0: nat, id1: nat, s: nat)
    requires k < |fs| && Scannable(t, fs[k])
    ensures HasPartial(FrameReadings(t, fs, k, id0), k, s) <==> HasPartial(FrameReadings(t, fs, k, id1), k, s)
  {
    FrameReadingsMeaning(t, fs, k, id0, k, s);
    FrameReadingsMeaning(t, fs, k, id1, k, s);
  }

  /** The partial readings of frame k among the first n frames' readings are those its own scan makes. */
  lemma {:induction false} PartialsFrom(t: seq<Event>, fs: seq<Frame>, n: nat, id0: nat, k: nat, s: nat)
    requires n <= |fs| && AllScannable(t, fs) && k < n
    ensures HasPartial(Partials(t, fs, n, id0), k, s) <==> HasPartial(FrameReadings(t, fs, k, 0), k, s)
  {
    if k == n - 1 {
      PartialsNewest(t, fs, n, id0, s);
    } else {
      PartialsFrom(t, fs, n - 1, id0, k, s);
      PartialsEarlier(t, fs, n, id0, k, s);
      assert HasPartial(Partials(t, fs, n, id0), k, s) <==> HasPartial(Partials(t, fs, n - 1, id0), k, s);
      assert HasPartial(Partials(t, fs, n - 1, id0), k, s) <==> HasPartial(FrameReadings(t, fs, k, 0), k, s);
    }
  }

  /** The newest frame's partial readings are those of its own scan. */
  lemma PartialsNewest(t: seq<Event>, fs: seq<Frame>, n: nat, id0: nat, s: nat)
    requires 0 < n <= |fs| && AllScannable(t, fs)
    ensures HasPartial(Partials(t, fs, n, id0), n - 1, s) <==> HasPartial(FrameReadings(t, fs, n - 1, 0), n - 1, s)
  {
    var pre := Partials(t, fs, n - 1, id0);
    var mine := FrameReadings(t, fs, n - 1, id0 + |pre|);
    assert !HasPartial(pre, n - 1, s) by {
      PartialsFrames(t, fs, n - 1, id0);
    }
    assert HasPartial(mine, n - 1, s) <==> HasPartial(FrameReadings(t, fs, n - 1, 0), n - 1, s) by {
      FrameReadingsRenumbered(t, fs, n - 1, id0 + |pre|, 0, s);
    }
    HasConcat(pre, mine, n - 1, s);
  }

  /** Scanning the newest frame adds no partial reading of any other frame. */
  lemma PartialsEarlier(t: seq<Event>, fs: seq<Frame>, n: nat, id0: nat, k: nat, s: nat)
    requires 0 < n <= |fs| && AllScannable(t, fs) && k != n - 1
    ensures HasPartial(Partials(t, fs, n, id0), k, s) <==> HasPartial(Partials(t, fs, n - 1, id0), k, s)
  {
    var pre := Partials(t, fs, n - 1, id0);
    var mine := FrameReadings(t, fs, n - 1, id0 + |pre|);
    assert !HasPartial(mine, k, s) by {
      FrameReadingsShape(t, fs, n - 1, id0 + |pre|);
      assert forall p :: p in mine ==> p.frame == n - 1;
    }
    HasConcat(pre, mine, k, s);
  }

  /**
   * createPartialPatterns makes a partial reading of frame k starting at s
   * exactly when k is one of the first n frames and s is a split point of it.
   */
  lemma PartialsMeaning(t: seq<Event>, fs: seq<Frame>, n: nat, id0: nat, k: nat, s: nat)
    requires n <= |fs| && AllScannable(t, fs) && k < |fs|
    ensures HasPartial(Partials(t, fs, n, id0), k, s) <==> k < n && SplitPoint(t, fs[k], s)
  {
    if k < n {
      PartialsFrom(t, fs, n, id0, k, s);
      FrameReadingsMeaning(t, fs, k, 0, k, s);
    } else {
      PartialsFrames(t, fs, n, id0);
    }
  }

  /** The first n frames' readings all name one of those frames. */
  lemma {:induction false} PartialsFrames(t: seq<Event>, fs: seq<Frame>, n: nat, id0: nat)
    requires n <= |fs| && AllScannable(t, fs)
    ensures forall p :: p in Partials(t, fs, n, id0) ==> p.frame < n
  {
    if n > 0 {
      PartialsFrames(t, fs, n - 1, id0);
      var pre := Partials(t, fs, n - 1, id0);
      var mine := FrameReadings(t, fs, n - 1, id0 + |pre|);
      FrameReadingsShape(t, fs, n - 1, id0 + |pre|);
      assert forall p :: p in mine ==> p.frame == n - 1;
    }
  }

  /** The partition key: the trace line at partialStart + offset, or nothing past the end. */
  function Key(t: seq<Event>, p: PartialPattern, offset: nat): Option<Event>
    requires 0 <= p.partialStart
  {
    At(t, p.partialStart + offset)
  }

  /** The whole readings that run past their length at this offset, in list order. */
  function Completed(list: seq<PartialPattern>, offset: nat): seq<PartialPattern>
  {
    if |list| == 0 then []
    else
      var p := list[|list| - 1];
      Completed(list[..|list| - 1], offset) + (if offset > p.length && p.whole then [p] else [])
  }

  /** The readings still inside their length, each with its key, in list order. */
  function Keyed(t: seq<Event>, fs: seq<Frame>, list: seq<PartialPattern>, offset: nat): seq<(Option<Event>, PartialPattern)>
    requires forall i :: 0 <= i < |list| ==> 0 <= list[i].partialStart
  {
    if |list| == 0 then []
    else
      var p := list[|list| - 1];
      Keyed(t, fs, list[..|list| - 1], offset) + (if offset > p.length then [] else [(Key(t, p, offset), p)])
  }

  /** Every reading that stays keeps its length at least the offset. */
  lemma {:induction false} KeyedMembers(t: seq<Event>, fs: seq<Frame>, list: seq<PartialPattern>, offset: nat)
    requires forall i :: 0 <= i < |list| ==> 0 <= list[i].partialStart
    ensures forall x :: x in Keyed(t, fs, list, offset) ==> x.1 in list && offset <= x.1.length && x.0 == Key(t, x.1, offset)
    ensures forall p :: p in list && offset <= p.length ==> (Key(t, p, offset), p) in Keyed(t, fs, list, offset)
  {
    if |list| > 0 {
      var init := list[..|list| - 1];
      KeyedMembers(t, fs, init, offset);
      assert list == init + [list[|list| - 1]];
    }
  }

  lemma ChildrenStaged(t: seq<Event>, fs: seq<Frame>, list: seq<PartialPattern>, offset: nat, bound: nat)
    requires AllStaged(fs, list, bound)
    ensures forall i :: 0 <= i < |GroupByKey(Keyed(t, fs, list, offset))| ==>
      AllStaged(fs, GroupByKey(Keyed(t, fs, list, offset))[i].1, bound)
    ensures |GroupByKey(Keyed(t, fs, list, offset))| > 0 ==> offset <= bound
  {
    var pairs := Keyed(t, fs, list, offset);
    var gs := GroupByKey(pairs);
    KeyedMembers(t, fs, list, offset);
    GroupByKeySpec(pairs);
    forall i, j | 0 <= i < |gs| && 0 <= j < |gs[i].1| ensures Staged(fs, gs[i].1[j], bound) && offset <= bound {
      assert gs[i].1 == ValuesOf(pairs, gs[i].0);
      ValuesOfMember(pairs, gs[i].0, gs[i].1[j]);
      var k :| 0 <= k < |list| && list[k] == gs[i].1[j];
      assert Staged(fs, list[k], bound);
    }
    if |gs| > 0 {
      assert |gs[0].1| > 0;
    }
  }

  /** Every reading names a frame of fs. */
  predicate Within(fs: seq<Frame>, list: seq<PartialPattern>)
  {
    forall i :: 0 <= i < |list| ==> list[i].frame < |fs|
  }

  /** Some reading among the first m of the list, other than c, has intervals containing c's frame's. */
  function Hits(fs: seq<Frame>, c: PartialPattern, list: seq<PartialPattern>, m: nat): bool
    requires c.frame < |fs| && m <= |list| && Within(fs, list)
  {
    m > 0 &&
      (Hits(fs, c, list, m - 1) ||
        (list[m - 1].id != c.id && Contained(fs[c.frame].intervals, fs[list[m - 1].frame].intervals)))
  }

  /** The frames of the first n completed readings that some other reading of the list hits. */
  function ClearedBy(fs: seq<Frame>, completed: seq<PartialPattern>, list: seq<PartialPattern>, n: nat): set<nat>
    requires n <= |completed| && Within(fs, completed) && Within(fs, list)
  {
    if n == 0 then {}
    else ClearedBy(fs, completed, list, n - 1) + (if Hits(fs, completed[n - 1], list, |list|) then {completed[n - 1].frame} else {})
  }

  /** The completed readings are readings of the list. */
  lemma {:induction false} CompletedMembers(list: seq<PartialPattern>, offset: nat)
    ensures forall p :: p in Completed(list, offset) <==> p in list && p.whole && offset > p.length
  {
    if |list| > 0 {
      var init := list[..|list| - 1];
      CompletedMembers(init, offset);
      assert list == init + [list[|list| - 1]];
    }
  }

  lemma ClearedWithin(fs: seq<Frame>, list: seq<PartialPattern>, offset: nat, bound: nat)
    requires AllStaged(fs, list, bound)
    ensures Within(fs, Completed(list, offset)) && Within(fs, list)
  {
    CompletedMembers(list, offset);
    var done := Completed(list, offset);
    assert Within(fs, done) by {
      forall i | 0 <= i < |done| ensures done[i].frame < |fs| {
        assert done[i] in done;
        var k :| 0 <= k < |list| && list[k] == done[i];
        assert Staged(fs, list[k], bound);
      }
    }
    assert Within(fs, list) by {
      assert forall i :: 0 <= i < |list| ==> Staged(fs, list[i], bound);
    }
  }

  /** The frames one call of filterR, at the offset it has already advanced to, clears itself. */
  function Cleared(fs: seq<Frame>, list: seq<PartialPattern>, level: nat, bound: nat): set<nat>
    requires AllStaged(fs, list, bound)
  {
    ClearedWithin(fs, list, level, bound);
    var done := Completed(list, level);
    ClearedBy(fs, done, list, |done|)
  }

  /** The frames filterR(list, offset) clears, with those its recursive calls clear. */
  function Invalidated(t: seq<Event>, fs: seq<Frame>, list: seq<PartialPattern>, offset: nat, bound: nat): set<nat>
    requires AllStaged(fs, list, bound)
    decreases bound - offset, 2, 0
  {
    Cleared(fs, list, offset + 1, bound) + Children(t, fs, list, offset, bound)
  }

  /** What the recursive calls on the groups of the partition clear. */
  function Children(t: seq<Event>, fs: seq<Frame>, list: seq<PartialPattern>, offset: nat, bound: nat): set<nat>
    requires AllStaged(fs, list, bound)
    decreases bound - offset, 1, 0
  {
    ChildrenStaged(t, fs, list, offset + 1, bound);
    var gs := GroupByKey(Keyed(t, fs, list, offset + 1));
    InvalidatedGroups(t, fs, gs, |gs|, offset + 1, bound)
  }

  /** What the recursive calls, at the advanced offset, on the first n groups clear. */
  function InvalidatedGroups(t: seq<Event>, fs: seq<Frame>, gs: seq<(Option<Event>, seq<PartialPattern>)>, n: nat, level: nat, bound: nat): set<nat>
    requires n <= |gs| && (n > 0 ==> level <= bound)
    requires forall i :: 0 <= i < |gs| ==> AllStaged(fs, gs[i].1, bound)
    decreases bound - level + 1, 0, n
  {
    if n == 0 then {}
    else InvalidatedGroups(t, fs, gs, n - 1, level, bound) + Invalidated(t, fs, gs[n - 1].1, level, bound)
  }

  /** What filter leaves of the frames. */
  function PartialFiltered(t: seq<Event>, fs: seq<Frame>, readings: seq<PartialPattern>): seq<Frame>
    requires AllStaged(fs, readings, MaxLength(fs))
  {
    if |readings| == 0 then fs else Clear(fs, Invalidated(t, fs, readings, 0, MaxLength(fs)))
  }

  // ---------------------------------------------------------------------
  // Steps of the loops of filterR
  // ---------------------------------------------------------------------

  lemma SortStep(t: seq<Event>, fs: seq<Frame>, list: seq<PartialPattern>, offset: nat, i: nat)
    requires i < |list| && forall j :: 0 <= j < |list| ==> 0 <= list[j].partialStart
    ensures Completed(list[..i + 1], offset) == Completed(list[..i], offset) +
      (if offset > list[i].length && list[i].whole then [list[i]] else [])
    ensures offset <= list[i].length ==>
      GroupByKey(Keyed(t, fs, list[..i + 1], offset)) == Insert(GroupByKey(Keyed(t, fs, list[..i], offset)), Key(t, list[i], offset), list[i])
    ensures offset > list[i].length ==>
      GroupByKey(Keyed(t, fs, list[..i + 1], offset)) == GroupByKey(Keyed(t, fs, list[..i], offset))
  {
    assert list[..i + 1][..i] == list[..i];
    var pairs := Keyed(t, fs, list[..i], offset);
    var p := list[i];
    if offset <= p.length {
      assert Keyed(t, fs, list[..i + 1], offset) == pairs + [(Key(t, p, offset), p)];
      assert (pairs + [(Key(t, p, offset), p)])[..|pairs|] == pairs;
    } else {
      assert Keyed(t, fs, list[..i + 1], offset) == pairs + [];
      assert pairs + [] == pairs;
    }
  }

  /** A call of filterR clears what it clears itself, then what its groups clear. */
  lemma InvalidatedUnfold(t: seq<Event>, fs: seq<Frame>, list: seq<PartialPattern>, offset: nat, bound: nat,
                          p0: seq<Frame>, p1: seq<Frame>, p2: seq<Frame>)
    requires AllStaged(fs, list, bound)
    requires p1 == Clear(p0, Cleared(fs, list, offset + 1, bound))
    requires p2 == Clear(p1, Children(t, fs, list, offset, bound))
    ensures p2 == Clear(p0, Invalidated(t, fs, list, offset, bound))
  {
    ClearTwice(p0, Cleared(fs, list, offset + 1, bound), Children(t, fs, list, offset, bound));
  }

  lemma GroupsStep(t: seq<Event>, fs: seq<Frame>, gs: seq<(Option<Event>, seq<PartialPattern>)>, k: nat, level: nat, bound: nat,
                   p0: seq<Frame>, p1: seq<Frame>, p2: seq<Frame>)
    requires k < |gs| && level <= bound
    requires forall i :: 0 <= i < |gs| ==> AllStaged(fs, gs[i].1, bound)
    requires p1 == Clear(p0, InvalidatedGroups(t, fs, gs, k, level, bound))
    requires p2 == Clear(p1, Invalidated(t, fs, gs[k].1, level, bound))
    ensures p2 == Clear(p0, InvalidatedGroups(t, fs, gs, k + 1, level, bound))
  {
    ClearTwice(p0, InvalidatedGroups(t, fs, gs, k, level, bound), Invalidated(t, fs, gs[k].1, level, bound));
  }

  // ---------------------------------------------------------------------
  // The filter (js/filters/PartialPatternFilter.js:10-94)
  // ---------------------------------------------------------------------

  class PartialPatternFilter {
    var trace: seq<Event>
    var patternFrames: seq<Frame>
    var partialPatterns: seq<PartialPattern>
    var filteredPatternFrames: seq<Frame>

    constructor (trace: seq<Event>)
      ensures this.trace == trace && patternFrames == [] && partialPatterns == [] && filteredPatternFrames == []
    {
      this.trace := trace;
      patternFrames := [];
      partialPatterns := [];
      filteredPatternFrames := [];
    }

    /** createPartialPatterns: for every frame its whole reading, then one per inner split point, numbered on from the readings so far. */
    method CreatePartialPatterns(patternFrames: seq<Frame>)
      requires AllScannable(trace, patternFrames)
      modifies this
      ensures trace == old(trace) && filteredPatternFrames == old(filteredPatternFrames)
      ensures this.patternFrames == patternFrames
      ensures partialPatterns == old(partialPatterns) + Partials(trace, patternFrames, |patternFrames|, |old(partialPatterns)|)
    {
      this.patternFrames := patternFrames;
      ghost var id0 := |partialPatterns|;
      var k := 0;
      while k < |patternFrames|
        invariant 0 <= k <= |patternFrames|
        invariant trace == old(trace) && filteredPatternFrames == old(filteredPatternFrames)
        invariant this.patternFrames == patternFrames
        invariant partialPatterns == old(partialPatterns) + Partials(trace, patternFrames, k, id0)
        decreases |patternFrames| - k
      {
        ghost var pre := Partials(trace, patternFrames, k, id0);
        assert |partialPatterns| == id0 + |pre|;
        ReadFrame(k);
        ReadingsAssoc(old(partialPatterns), pre, FrameReadings(trace, patternFrames, k, id0 + |pre|));
        k := k + 1;
      }
    }

    /** One pass of the outer loop of createPartialPatterns: the readings of frame k. */
    method ReadFrame(k: nat)
      requires k < |patternFrames| && Scannable(trace, patternFrames[k])
      modifies this
      ensures trace == old(trace) && filteredPatternFrames == old(filteredPatternFrames) && patternFrames == old(patternFrames)
      ensures partialPatterns == old(partialPatterns) + FrameReadings(trace, patternFrames, k, |old(partialPatterns)|)
    {
      var patternFrame := patternFrames[k];
      var stackDepth := 0;
      var length := patternFrame.end - patternFrame.start;
      var wholePattern := PartialPattern(|partialPatterns|, k, length, 0, true);
      partialPatterns := partialPatterns + [wholePattern];
      var i := 1;
      while i < length
        invariant 1 <= i <= InnerEnd(patternFrame) + 1
        invariant trace == old(trace) && filteredPatternFrames == old(filteredPatternFrames) && patternFrames == old(patternFrames)
        invariant stackDepth == InnerDepth(trace, patternFrame, i - 1)
        invariant partialPatterns == old(partialPatterns) + [wholePattern] + Inner(trace, patternFrames, k, i - 1, |old(partialPatterns)| + 1)
        decreases length - i
      {
        ScanStep(trace, patternFrame, i);
        var event := trace[patternFrame.start + i];
        if event.Enter? {
          stackDepth := stackDepth + 1;
        } else {
          stackDepth := stackDepth - 1;
        }
        if stackDepth == 0 {
          var partialPattern := PartialPattern(|partialPatterns|, k, length, i, false);
          partialPatterns := partialPatterns + [partialPattern];
        }
        i := i + 1;
      }
    }

    /**
     * filter: filterR over all readings from offset 0, then every frame
     * still valid, in order; nothing at all without readings. The readings
     * are those createPartialPatterns made for the current frames on a new
     * filter (PartialsStaged shows they are staged).
     */
    method Filter()
      requires AllScannable(trace, patternFrames) && partialPatterns == Partials(trace, patternFrames, |patternFrames|, 0)
      requires AllStaged(patternFrames, partialPatterns, MaxLength(patternFrames))
      modifies this
      ensures trace == old(trace) && partialPatterns == old(partialPatterns)
      ensures patternFrames == PartialFiltered(trace, old(patternFrames), partialPatterns)
      ensures filteredPatternFrames == old(filteredPatternFrames) + (if |partialPatterns| == 0 then [] else KeepValid(patternFrames))
    {
      if |partialPatterns| == 0 {
        return;
      }
      FilterR(partialPatterns, 0, patternFrames, MaxLength(patternFrames));
      PushValid();
    }

    /** The closing loop of filter: every frame whose flag is still set, in order. */
    method PushValid()
      modifies this
      ensures trace == old(trace) && partialPatterns == old(partialPatterns) && patternFrames == old(patternFrames)
      ensures filteredPatternFrames == old(filteredPatternFrames) + KeepValid(patternFrames)
    {
      var i := 0;
      while i < |patternFrames|
        invariant 0 <= i <= |patternFrames|
        invariant trace == old(trace) && partialPatterns == old(partialPatterns) && patternFrames == old(patternFrames)
        invariant filteredPatternFrames == old(filteredPatternFrames) + KeepValid(patternFrames[..i])
        decreases |patternFrames| - i
      {
        KeepValidSnoc(patternFrames, i);
        if patternFrames[i].valid {
          filteredPatternFrames := filteredPatternFrames + [patternFrames[i]];
        }
        i := i + 1;
      }
      assert patternFrames[..i] == patternFrames;
    }

    /** filterR on one list of readings at an offset; fs0 is the frame list as far as the filter reads it. */
    method FilterR(patterns: seq<PartialPattern>, offset: nat, ghost fs0: seq<Frame>, ghost bound: nat)
      requires AllStaged(fs0, patterns, bound) && Like(patternFrames, fs0)
      modifies this
      ensures trace == old(trace) && partialPatterns == old(partialPatterns) && filteredPatternFrames == old(filteredPatternFrames)
      ensures patternFrames == Clear(old(patternFrames), Invalidated(trace, fs0, patterns, offset, bound))
      decreases bound - offset, 1, 0
    {
      ghost var p0 := patternFrames;
      var level := offset + 1;
      var completed, partition := SortPatterns(patterns, level, fs0, bound);
      ClearedWithin(fs0, patterns, level, bound);
      ClearContained(completed, patterns, fs0);
      ghost var p1 := patternFrames;
      ChildrenStaged(trace, fs0, patterns, level, bound);
      FilterPartition(partition, level, fs0, bound);
      InvalidatedUnfold(trace, fs0, patterns, offset, bound, p0, p1, patternFrames);
    }

    /** The partition loop of filterR: a reading past its length leaves (into completed when whole), the others go under their key. */
    method SortPatterns(patterns: seq<PartialPattern>, level: nat, ghost fs0: seq<Frame>, ghost bound: nat)
      returns (completed: seq<PartialPattern>, partition: seq<(Option<Event>, seq<PartialPattern>)>)
      requires AllStaged(fs0, patterns, bound)
      ensures completed == Completed(patterns, level)
      ensures partition == GroupByKey(Keyed(trace, fs0, patterns, level))
    {
      assert forall j :: 0 <= j < |patterns| ==> 0 <= patterns[j].partialStart by {
        assert forall j :: 0 <= j < |patterns| ==> Staged(fs0, patterns[j], bound);
      }
      completed, partition := [], [];
      var i := 0;
      while i < |patterns|
        invariant 0 <= i <= |patterns|
        invariant completed == Completed(patterns[..i], level)
        invariant partition == GroupByKey(Keyed(trace, fs0, patterns[..i], level))
        decreases |patterns| - i
      {
        SortStep(trace, fs0, patterns, level, i);
        var partialPattern := patterns[i];
        if level > partialPattern.length {
          if partialPattern.whole {
            completed := completed + [partialPattern];
          }
        } else {
          var key := At(trace, partialPattern.partialStart + level);
          partition := Insert(partition, key, partialPattern);
        }
        i := i + 1;
      }
      assert patterns[..i] == patterns;
    }

    /** The loop over the completed readings: clear a frame contained in the frame of another reading of the list. */
    method ClearContained(completed: seq<PartialPattern>, patterns: seq<PartialPattern>, ghost fs0: seq<Frame>)
      requires Within(fs0, completed) && Within(fs0, patterns) && Like(patternFrames, fs0)
      modifies this
      ensures trace == old(trace) && partialPatterns == old(partialPatterns) && filteredPatternFrames == old(filteredPatternFrames)
      ensures patternFrames == Clear(old(patternFrames), ClearedBy(fs0, completed, patterns, |completed|))
    {
      ghost var p0 := patternFrames;
      var c := 0;
      while c < |completed|
        invariant 0 <= c <= |completed|
        invariant trace == old(trace) && partialPatterns == old(partialPatterns) && filteredPatternFrames == old(filteredPatternFrames)
        invariant patternFrames == Clear(p0, ClearedBy(fs0, completed, patterns, c))
        decreases |completed| - c
      {
        ClearIfContained(completed[c], patterns, fs0, p0, ClearedBy(fs0, completed, patterns, c));
        c := c + 1;
      }
    }

    /** The inner loop over the list: clear the completed reading's frame when another reading's frame has intervals containing its own. */
    method ClearIfContained(completedPattern: PartialPattern, patterns: seq<PartialPattern>, ghost fs0: seq<Frame>,
                            ghost p0: seq<Frame>, ghost gone: set<nat>)
      requires completedPattern.frame < |fs0| && Within(fs0, patterns) && Like(patternFrames, fs0)
      requires patternFrames == Clear(p0, gone)
      modifies this
      ensures trace == old(trace) && partialPatterns == old(partialPatterns) && filteredPatternFrames == old(filteredPatternFrames)
      ensures patternFrames == Clear(p0, gone + (if Hits(fs0, completedPattern, patterns, |patterns|) then {completedPattern.frame} else {}))
    {
      var r := 0;
      while r < |patterns|
        invariant 0 <= r <= |patterns|
        invariant trace == old(trace) && partialPatterns == old(partialPatterns) && filteredPatternFrames == old(filteredPatternFrames)
        invariant patternFrames == Clear(p0, gone + (if Hits(fs0, completedPattern, patterns, r) then {completedPattern.frame} else {}))
        decreases |patterns| - r
      {
        var partialPattern := patterns[r];
        if partialPattern.id != completedPattern.id {
          var contained := SubInterval(patternFrames[completedPattern.frame].intervals, patternFrames[partialPattern.frame].intervals);
          if contained {
            ClearAdd(p0, gone + (if Hits(fs0, completedPattern, patterns, r) then {completedPattern.frame} else {}), completedPattern.frame);
            patternFrames := patternFrames[completedPattern.frame := patternFrames[completedPattern.frame].(valid := false)];
          }
        }
        r := r + 1;
      }
    }

    /** The loop over the partition: filterR on every group at the advanced offset, in first-key order. */
    method FilterPartition(partition: seq<(Option<Event>, seq<PartialPattern>)>, level: nat, ghost fs0: seq<Frame>, ghost bound: nat)
      requires forall i :: 0 <= i < |partition| ==> AllStaged(fs0, partition[i].1, bound)
      requires |partition| > 0 ==> level <= bound
      requires Like(patternFrames, fs0)
      modifies this
      ensures trace == old(trace) && partialPatterns == old(partialPatterns) && filteredPatternFrames == old(filteredPatternFrames)
      ensures patternFrames == Clear(old(patternFrames), InvalidatedGroups(trace, fs0, partition, |partition|, level, bound))
      decreases bound - level + 1, 0, 0
    {
      ghost var p0 := patternFrames;
      var k := 0;
      while k < |partition|
        invariant 0 <= k <= |partition|
        invariant trace == old(trace) && partialPatterns == old(partialPatterns) && filteredPatternFrames == old(filteredPatternFrames)
        invariant patternFrames == Clear(p0, InvalidatedGroups(trace, fs0, partition, k, level, bound))
        invariant Like(patternFrames, fs0)
        decreases |partition| - k
      {
        ghost var p1 := patternFrames;
        FilterR(partition[k].1, level, fs0, bound);
        GroupsStep(trace, fs0, partition, k, level, bound, p0, p1, patternFrames);
        k := k + 1;
      }
    }
  }
}
