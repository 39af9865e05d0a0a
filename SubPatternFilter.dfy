/**
 * The sub-pattern filter (js/filters/SubPatternFilter.js). Every frame is
 * read from each of its split points; all these readings advance one body
 * position at a time and are partitioned by the event they reach. A reading
 * that comes back to its starting point has matched, position by position,
 * every reading still in its group; its frame is dropped when its intervals
 * lie inside those of a different frame read in that group.
 */
module SubPattern {
  import opened Intervals
  import opened Events
  import opened Grouping
  import opened Frames

  /** A frame, by its place in the frame list, read from one split point; index is the body position reached. */
  datatype RotatedPattern = RotatedPattern(frame: nat, length: int, rotatedStart: int, index: int)

  // ---------------------------------------------------------------------
  // incrementIndex (js/filters/SubPatternFilter.js:10-15)
  // ---------------------------------------------------------------------

  /** One body position on, wrapping from past the end to 1. */
  function Increment(p: RotatedPattern): (q: RotatedPattern)
    ensures q.frame == p.frame && q.length == p.length && q.rotatedStart == p.rotatedStart
    ensures 0 <= p.index ==> 1 <= q.index <= Max(p.length, 1)
  {
    var i := p.index + 1;
    if i > p.length then p.(index := 1) else p.(index := i)
  }

  /** Starting point and index both lie in the body positions 1..length. */
  predicate Placed(p: RotatedPattern)
  {
    1 <= p.rotatedStart <= p.length && 1 <= p.index <= p.length
  }

  /** How many increments bring the index back to the starting point. */
  function Remaining(p: RotatedPattern): (r: int)
    requires Placed(p)
    ensures 1 <= r <= p.length
  {
    if p.index < p.rotatedStart then p.rotatedStart - p.index else p.length - p.index + p.rotatedStart
  }

  lemma IncrementRemaining(p: RotatedPattern)
    requires Placed(p)
    ensures Placed(Increment(p))
    ensures Increment(p).index == p.rotatedStart <==> Remaining(p) == 1
    ensures Remaining(p) > 1 ==> Remaining(Increment(p)) == Remaining(p) - 1
  {
  }

  /** The reading after k increments. */
  function Advance(p: RotatedPattern, k: nat): (q: RotatedPattern)
    ensures q.frame == p.frame && q.length == p.length && q.rotatedStart == p.rotatedStart
  {
    if k == 0 then p else Increment(Advance(p, k - 1))
  }

  /** From its starting point, a reading of length n first returns to it after exactly n increments. */
  lemma {:induction false} IncrementCycle(p: RotatedPattern, k: nat)
    requires Placed(p) && p.index == p.rotatedStart && 1 <= k <= p.length
    ensures Placed(Advance(p, k))
    ensures Advance(p, k).index == p.rotatedStart <==> k == p.length
    ensures k < p.length ==> Remaining(Advance(p, k)) == p.length - k
  {
    var prev := Advance(p, k - 1);
    if k > 1 {
      IncrementCycle(p, k - 1);
    }
    assert Placed(prev) && Remaining(prev) == p.length - (k - 1);
    IncrementRemaining(prev);
    assert Advance(p, k) == Increment(prev);
  }

  // ---------------------------------------------------------------------
  // createRotatedPatterns (js/filters/SubPatternFilter.js:25-49)
  // ---------------------------------------------------------------------

  predicate AllInTrace(t: seq<Event>, fs: seq<Frame>)
  {
    forall k :: 0 <= k < |fs| ==> InTrace(t, fs[k])
  }

  /** The stack height over body positions 1..i. */
  function BodyDepth(t: seq<Event>, f: Frame, i: int): int
    requires InTrace(t, f) && 0 <= i <= Length(f)
  {
    Depth(t[f.start + 1..f.start + i + 1])
  }

  /** A split point: the body positions 1..i are a complete call stack. */
  predicate SplitAt(t: seq<Event>, f: Frame, i: int)
    requires InTrace(t, f)
  {
    1 <= i <= Length(f) && BodyDepth(t, f, i) == 0
  }

  /** The reading of frame k that starts right after split point i (at 1 when i ends the body). */
  function Reading(k: nat, f: Frame, i: int): RotatedPattern
  {
    var start := if i + 1 > Length(f) then 1 else i + 1;
    RotatedPattern(k, Length(f), start, start)
  }

  /** The readings of frame k at its split points 1..i, in order. */
  function ReadingsOf(t: seq<Event>, fs: seq<Frame>, k: nat, i: nat): seq<RotatedPattern>
    requires k < |fs| && InTrace(t, fs[k]) && i <= Length(fs[k])
  {
    if i == 0 then []
    else ReadingsOf(t, fs, k, i - 1) + (if SplitAt(t, fs[k], i) then [Reading(k, fs[k], i)] else [])
  }

  /** The readings of the first n frames, frame by frame. */
  function Readings(t: seq<Event>, fs: seq<Frame>, n: nat): seq<RotatedPattern>
    requires n <= |fs| && AllInTrace(t, fs)
  {
    if n == 0 then [] else Readings(t, fs, n - 1) + ReadingsOf(t, fs, n - 1, Length(fs[n - 1]))
  }

  lemma {:induction false} ReadingsOfMeaning(t: seq<Event>, fs: seq<Frame>, k: nat, i: nat, c: RotatedPattern)
    requires k < |fs| && InTrace(t, fs[k]) && i <= Length(fs[k])
    ensures c in ReadingsOf(t, fs, k, i) <==> exists j :: 1 <= j <= i && SplitAt(t, fs[k], j) && c == Reading(k, fs[k], j)
  {
    if i > 0 {
      ReadingsOfMeaning(t, fs, k, i - 1, c);
    }
  }

  /**
   * createRotatedPatterns makes exactly one reading per split point of
   * every frame: a reading is in the list iff it starts after a split point.
   */
  lemma {:induction false} ReadingsMeaning(t: seq<Event>, fs: seq<Frame>, n: nat, c: RotatedPattern)
    requires n <= |fs| && AllInTrace(t, fs)
    ensures c in Readings(t, fs, n) <==> exists k, j :: 0 <= k < n && SplitAt(t, fs[k], j) && c == Reading(k, fs[k], j)
  {
    if n > 0 {
      ReadingsMeaning(t, fs, n - 1, c);
      ReadingsOfMeaning(t, fs, n - 1, Length(fs[n - 1]), c);
    }
  }

  /** One pass of the inner loop of createRotatedPatterns. */
  lemma ReadStep(t: seq<Event>, fs: seq<Frame>, k: nat, i: nat)
    requires k < |fs| && InTrace(t, fs[k]) && 1 <= i <= Length(fs[k])
    ensures BodyDepth(t, fs[k], i) == BodyDepth(t, fs[k], i - 1) + Delta(t[fs[k].start + i])
  {
    var f := fs[k];
    var s := t[f.start + 1..f.start + i + 1];
    assert s[..|s| - 1] == t[f.start + 1..f.start + i];
  }

  // ---------------------------------------------------------------------
  // filterR (js/filters/SubPatternFilter.js:65-97) as a function of the reading list
  // ---------------------------------------------------------------------

  /** A reading of a frame of fs whose positions lie in that frame's body. */
  predicate Ready(t: seq<Event>, fs: seq<Frame>, p: RotatedPattern)
  {
    p.frame < |fs| && InTrace(t, fs[p.frame]) && p.length == Length(fs[p.frame]) && Placed(p)
  }

  /** A reading as a call of filterR receives it, `steps` increments after it was made. */
  predicate Staged(t: seq<Event>, fs: seq<Frame>, p: RotatedPattern, steps: nat, bound: nat)
  {
    Ready(t, fs, p) && Remaining(p) + steps == p.length && p.length <= bound
  }

  predicate AllStaged(t: seq<Event>, fs: seq<Frame>, list: seq<RotatedPattern>, steps: nat, bound: nat)
  {
    forall i :: 0 <= i < |list| ==> Staged(t, fs, list[i], steps, bound)
  }

  /** Every reading made by createRotatedPatterns is at its starting point, ready for the first call. */
  lemma ReadingsStaged(t: seq<Event>, fs: seq<Frame>)
    requires AllInTrace(t, fs)
    ensures AllStaged(t, fs, Readings(t, fs, |fs|), 0, MaxLength(fs))
  {
    var list := Readings(t, fs, |fs|);
    forall i | 0 <= i < |list| ensures Staged(t, fs, list[i], 0, MaxLength(fs)) {
      ReadingsMeaning(t, fs, |fs|, list[i]);
    }
  }

  /** The event at the reading's current body position, the partition key. */
  function Key(t: seq<Event>, fs: seq<Frame>, q: RotatedPattern): Event
    requires Ready(t, fs, q)
  {
    t[fs[q.frame].start + q.index]
  }

  /** The readings that are back at their starting point after one more increment, in list order. */
  function Completed(list: seq<RotatedPattern>): seq<RotatedPattern>
  {
    if |list| == 0 then []
    else
      var q := Increment(list[|list| - 1]);
      Completed(list[..|list| - 1]) + (if q.index == q.rotatedStart then [q] else [])
  }

  /** The others, each with its key, in list order. */
  function Keyed(t: seq<Event>, fs: seq<Frame>, list: seq<RotatedPattern>): seq<(Event, RotatedPattern)>
    requires forall i :: 0 <= i < |list| ==> Ready(t, fs, list[i])
  {
    if |list| == 0 then []
    else
      var p := list[|list| - 1];
      assert Ready(t, fs, p);
      var q := Increment(p);
      Keyed(t, fs, list[..|list| - 1]) + (if q.index == q.rotatedStart then [] else [(Key(t, fs, q), q)])
  }

  /** Advancing an incremented reading k times is advancing the reading k + 1 times. Twin of RotateFacts.AdvanceShift, for the other reading type. */
  lemma {:induction false} AdvanceShift(p: RotatedPattern, k: nat)
    ensures Advance(Increment(p), k) == Advance(p, k + 1)
  {
    if k > 0 {
      AdvanceShift(p, k - 1);
    }
  }

  /** Every completed reading is the increment of a reading of the list that came back to its starting point. Twin of RotateFacts.CompletedOrigin, for the other reading type. */
  lemma {:induction false} CompletedOrigin(list: seq<RotatedPattern>)
    ensures forall q :: q in Completed(list) ==>
      exists p :: p in list && q == Increment(p) && Increment(p).index == p.rotatedStart
  {
    if |list| > 0 {
      var init := list[..|list| - 1];
      CompletedOrigin(init);
      assert forall p :: p in init ==> p in list;
    }
  }

  /** Every keyed reading is the increment of a reading of the list that did not complete, under the event it reaches. Twin of RotateFacts.KeyedOrigin, for the other reading type. */
  lemma {:induction false} KeyedOrigin(t: seq<Event>, fs: seq<Frame>, list: seq<RotatedPattern>)
    requires forall i :: 0 <= i < |list| ==> Ready(t, fs, list[i])
    ensures forall x :: x in Keyed(t, fs, list) ==>
      && Ready(t, fs, x.1) && x.0 == Key(t, fs, x.1)
      && exists p :: p in list && x.1 == Increment(p) && Increment(p).index != p.rotatedStart
  {
    if |list| > 0 {
      var init := list[..|list| - 1];
      var p := list[|list| - 1];
      KeyedOrigin(t, fs, init);
      IncrementRemaining(p);
      assert forall r :: r in init ==> r in list;
    }
  }

  /** A reading in a group of the partition is the increment of a reading of the list that did not complete, and reaches the group's event. Twin of RotateFacts.GroupMemberOrigin, for the other reading type. */
  lemma GroupMemberOrigin(t: seq<Event>, fs: seq<Frame>, list: seq<RotatedPattern>, i: nat, r: RotatedPattern)
    requires forall j :: 0 <= j < |list| ==> Ready(t, fs, list[j])
    requires i < |GroupByKey(Keyed(t, fs, list))| && r in GroupByKey(Keyed(t, fs, list))[i].1
    ensures Ready(t, fs, r) && Key(t, fs, r) == GroupByKey(Keyed(t, fs, list))[i].0
    ensures exists p :: p in list && r == Increment(p) && Increment(p).index != p.rotatedStart
  {
    var pairs := Keyed(t, fs, list);
    var gs := GroupByKey(pairs);
    GroupByKeySpec(pairs);
    assert gs[i].1 == ValuesOf(pairs, gs[i].0);
    ValuesOfMember(pairs, gs[i].0, r);
    KeyedOrigin(t, fs, list);
    assert (gs[i].0, r) in pairs;
  }

  lemma {:induction false} KeyedStaged(t: seq<Event>, fs: seq<Frame>, list: seq<RotatedPattern>, steps: nat, bound: nat)
    requires AllStaged(t, fs, list, steps, bound)
    ensures forall x :: x in Keyed(t, fs, list) ==> Staged(t, fs, x.1, steps + 1, bound)
    ensures forall q :: q in Completed(list) ==> Ready(t, fs, q)
  {
    if |list| > 0 {
      KeyedStaged(t, fs, list[..|list| - 1], steps, bound);
      IncrementRemaining(list[|list| - 1]);
    }
  }

  lemma ChildrenStaged(t: seq<Event>, fs: seq<Frame>, list: seq<RotatedPattern>, steps: nat, bound: nat)
    requires AllStaged(t, fs, list, steps, bound)
    ensures forall i :: 0 <= i < |GroupByKey(Keyed(t, fs, list))| ==>
      AllStaged(t, fs, GroupByKey(Keyed(t, fs, list))[i].1, steps + 1, bound)
  {
    var pairs := Keyed(t, fs, list);
    var gs := GroupByKey(pairs);
    KeyedStaged(t, fs, list, steps, bound);
    GroupByKeySpec(pairs);
    forall i, j | 0 <= i < |gs| && 0 <= j < |gs[i].1| ensures Staged(t, fs, gs[i].1[j], steps + 1, bound) {
      assert gs[i].1 == ValuesOf(pairs, gs[i].0);
      ValuesOfMember(pairs, gs[i].0, gs[i].1[j]);
    }
  }

  /** What a call of filterR needs to recurse: the groups are staged one step on, and there is a step left when anything is. */
  predicate ChildrenOk(t: seq<Event>, fs: seq<Frame>, list: seq<RotatedPattern>, steps: nat, bound: nat)
    requires forall i :: 0 <= i < |list| ==> Ready(t, fs, list[i])
  {
    && (forall i :: 0 <= i < |GroupByKey(Keyed(t, fs, list))| ==> AllStaged(t, fs, GroupByKey(Keyed(t, fs, list))[i].1, steps + 1, bound))
    && (|GroupByKey(Keyed(t, fs, list))| > 0 ==> steps < bound)
  }

  lemma ChildrenReady(t: seq<Event>, fs: seq<Frame>, list: seq<RotatedPattern>, steps: nat, bound: nat)
    requires AllStaged(t, fs, list, steps, bound)
    ensures ChildrenOk(t, fs, list, steps, bound)
    ensures forall q :: q in Completed(list) ==> Ready(t, fs, q)
  {
    ChildrenStaged(t, fs, list, steps, bound);
    KeyedStaged(t, fs, list, steps, bound);
    if |list| > 0 {
      assert Staged(t, fs, list[0], steps, bound);
    }
  }

  /** Every reading names a frame of fs. */
  predicate Within(fs: seq<Frame>, list: seq<RotatedPattern>)
  {
    forall i :: 0 <= i < |list| ==> list[i].frame < |fs|
  }

  /** Some reading among the first m of the list, of a different frame, has intervals containing c's. */
  function Hits(fs: seq<Frame>, c: RotatedPattern, list: seq<RotatedPattern>, m: nat): bool
    requires c.frame < |fs| && m <= |list| && Within(fs, list)
  {
    m > 0 &&
      (Hits(fs, c, list, m - 1) ||
        (list[m - 1].frame != c.frame && Contained(fs[c.frame].intervals, fs[list[m - 1].frame].intervals)))
  }

  /** The frames of the first n completed readings that some reading of the list hits. */
  function ClearedBy(fs: seq<Frame>, completed: seq<RotatedPattern>, list: seq<RotatedPattern>, n: nat): set<nat>
    requires n <= |completed| && Within(fs, completed) && Within(fs, list)
  {
    if n == 0 then {}
    else ClearedBy(fs, completed, list, n - 1) + (if Hits(fs, completed[n - 1], list, |list|) then {completed[n - 1].frame} else {})
  }

  /** The frames one call of filterR clears itself. */
  function Cleared(t: seq<Event>, fs: seq<Frame>, list: seq<RotatedPattern>, steps: nat, bound: nat): set<nat>
    requires AllStaged(t, fs, list, steps, bound)
  {
    ChildrenReady(t, fs, list, steps, bound);
    var done := Completed(list);
    assert Within(fs, done) by {
      assert forall i :: 0 <= i < |done| ==> done[i] in done;
    }
    ClearedBy(fs, done, list, |done|)
  }

  /** The frames filterR clears on a list of readings all `steps` increments on, with those its recursive calls clear. */
  function Invalidated(t: seq<Event>, fs: seq<Frame>, list: seq<RotatedPattern>, steps: nat, bound: nat): set<nat>
    requires AllStaged(t, fs, list, steps, bound)
    decreases bound - steps, 2, 0
  {
    Cleared(t, fs, list, steps, bound) + Children(t, fs, list, steps, bound)
  }

  /** What the recursive calls on the groups of the partition clear. */
  function Children(t: seq<Event>, fs: seq<Frame>, list: seq<RotatedPattern>, steps: nat, bound: nat): set<nat>
    requires AllStaged(t, fs, list, steps, bound)
    decreases bound - steps, 1, 0
  {
    ChildrenReady(t, fs, list, steps, bound);
    var gs := GroupByKey(Keyed(t, fs, list));
    InvalidatedGroups(t, fs, gs, |gs|, steps, bound)
  }

  /** What the recursive calls on the first n groups clear. */
  function InvalidatedGroups(t: seq<Event>, fs: seq<Frame>, gs: seq<(Event, seq<RotatedPattern>)>, n: nat, steps: nat, bound: nat): set<nat>
    requires n <= |gs| && (n > 0 ==> steps < bound)
    requires forall i :: 0 <= i < |gs| ==> AllStaged(t, fs, gs[i].1, steps + 1, bound)
    decreases bound - steps, 0, n
  {
    if n == 0 then {}
    else InvalidatedGroups(t, fs, gs, n - 1, steps, bound) + Invalidated(t, fs, gs[n - 1].1, steps + 1, bound)
  }

  /** What filter leaves of the frames: every frame some call clears has its flag cleared. */
  function SubFiltered(t: seq<Event>, fs: seq<Frame>, readings: seq<RotatedPattern>): seq<Frame>
    requires AllStaged(t, fs, readings, 0, MaxLength(fs))
  {
    if |readings| == 0 then fs else Clear(fs, Invalidated(t, fs, readings, 0, MaxLength(fs)))
  }

  // ---------------------------------------------------------------------
  // Steps of the loops of filterR
  // ---------------------------------------------------------------------

  lemma SortStep(t: seq<Event>, fs: seq<Frame>, list: seq<RotatedPattern>, i: nat)
    requires i < |list| && forall j :: 0 <= j < |list| ==> Ready(t, fs, list[j])
    ensures Ready(t, fs, list[i]) && Ready(t, fs, Increment(list[i]))
    ensures Completed(list[..i + 1]) == Completed(list[..i]) +
      (if Increment(list[i]).index == list[i].rotatedStart then [Increment(list[i])] else [])
    ensures Increment(list[i]).index != list[i].rotatedStart ==>
      GroupByKey(Keyed(t, fs, list[..i + 1])) == Insert(GroupByKey(Keyed(t, fs, list[..i])), Key(t, fs, Increment(list[i])), Increment(list[i]))
    ensures Increment(list[i]).index == list[i].rotatedStart ==>
      GroupByKey(Keyed(t, fs, list[..i + 1])) == GroupByKey(Keyed(t, fs, list[..i]))
  {
    IncrementRemaining(list[i]);
    assert list[..i + 1][..i] == list[..i];
    var pairs := Keyed(t, fs, list[..i]);
    var q := Increment(list[i]);
    if q.index != q.rotatedStart {
      assert Keyed(t, fs, list[..i + 1]) == pairs + [(Key(t, fs, q), q)];
      assert (pairs + [(Key(t, fs, q), q)])[..|pairs|] == pairs;
    } else {
      assert Keyed(t, fs, list[..i + 1]) == pairs + [];
      assert pairs + [] == pairs;
    }
  }

  /** A call of filterR clears what it clears itself, then what its groups clear. */
  lemma InvalidatedUnfold(t: seq<Event>, fs: seq<Frame>, list: seq<RotatedPattern>, steps: nat, bound: nat,
                          p0: seq<Frame>, p1: seq<Frame>, p2: seq<Frame>)
    requires AllStaged(t, fs, list, steps, bound)
    requires p1 == Clear(p0, Cleared(t, fs, list, steps, bound))
    requires p2 == Clear(p1, Children(t, fs, list, steps, bound))
    ensures p2 == Clear(p0, Invalidated(t, fs, list, steps, bound))
  {
    ClearTwice(p0, Cleared(t, fs, list, steps, bound), Children(t, fs, list, steps, bound));
  }

  lemma GroupsStep(t: seq<Event>, fs: seq<Frame>, gs: seq<(Event, seq<RotatedPattern>)>, k: nat, steps: nat, bound: nat,
                   p0: seq<Frame>, p1: seq<Frame>, p2: seq<Frame>)
    requires k < |gs| && steps < bound
    requires forall i :: 0 <= i < |gs| ==> AllStaged(t, fs, gs[i].1, steps + 1, bound)
    requires p1 == Clear(p0, InvalidatedGroups(t, fs, gs, k, steps, bound))
    requires p2 == Clear(p1, Invalidated(t, fs, gs[k].1, steps + 1, bound))
    ensures p2 == Clear(p0, InvalidatedGroups(t, fs, gs, k + 1, steps, bound))
  {
    ClearTwice(p0, InvalidatedGroups(t, fs, gs, k, steps, bound), Invalidated(t, fs, gs[k].1, steps + 1, bound));
  }

  // ---------------------------------------------------------------------
  // The filter (js/filters/SubPatternFilter.js:17-97)
  // ---------------------------------------------------------------------

  class SubPatternFilter {
    var trace: seq<Event>
    var patternFrames: seq<Frame>
    var rotatedPatterns: seq<RotatedPattern>
    var filteredPatternFrames: seq<Frame>

    constructor (trace: seq<Event>)
      ensures this.trace == trace && patternFrames == [] && rotatedPatterns == [] && filteredPatternFrames == []
    {
      this.trace := trace;
      patternFrames := [];
      rotatedPatterns := [];
      filteredPatternFrames := [];
    }

    /** createRotatedPatterns: one reading per split point of every frame, frame by frame. */
    method CreateRotatedPatterns(patternFrames: seq<Frame>)
      requires AllInTrace(trace, patternFrames)
      modifies this
      ensures trace == old(trace) && filteredPatternFrames == old(filteredPatternFrames)
      ensures this.patternFrames == patternFrames
      ensures rotatedPatterns == old(rotatedPatterns) + Readings(trace, patternFrames, |patternFrames|)
    {
      this.patternFrames := patternFrames;
      var k := 0;
      while k < |patternFrames|
        invariant 0 <= k <= |patternFrames|
        invariant trace == old(trace) && filteredPatternFrames == old(filteredPatternFrames)
        invariant this.patternFrames == patternFrames
        invariant rotatedPatterns == old(rotatedPatterns) + Readings(trace, patternFrames, k)
        decreases |patternFrames| - k
      {
        ReadFrame(k);
        assert Readings(trace, patternFrames, k + 1) == Readings(trace, patternFrames, k) + ReadingsOf(trace, patternFrames, k, Length(patternFrames[k]));
        k := k + 1;
      }
    }

    /** One pass of the outer loop of createRotatedPatterns: the readings of frame k. */
    method ReadFrame(k: nat)
      requires k < |patternFrames| && InTrace(trace, patternFrames[k])
      modifies this
      ensures trace == old(trace) && filteredPatternFrames == old(filteredPatternFrames) && patternFrames == old(patternFrames)
      ensures rotatedPatterns == old(rotatedPatterns) + ReadingsOf(trace, patternFrames, k, Length(patternFrames[k]))
    {
      var patternFrame := patternFrames[k];
      var stackDepth := 0;
      var length := patternFrame.end - patternFrame.start;
      var i := 1;
      while i <= length
        invariant 1 <= i <= length + 1
        invariant trace == old(trace) && filteredPatternFrames == old(filteredPatternFrames) && patternFrames == old(patternFrames)
        invariant stackDepth == BodyDepth(trace, patternFrame, i - 1)
        invariant rotatedPatterns == old(rotatedPatterns) + ReadingsOf(trace, patternFrames, k, i - 1)
        decreases length - i
      {
        ReadStep(trace, patternFrames, k, i);
        var event := trace[patternFrame.start + i];
        if event.Enter? {
          stackDepth := stackDepth + 1;
        } else {
          stackDepth := stackDepth - 1;
        }
        if stackDepth == 0 {
          var rotatedPattern := RotatedPattern(k, length, 0, i);
          rotatedPattern := Increment(rotatedPattern);
          rotatedPattern := rotatedPattern.(rotatedStart := rotatedPattern.index, length := length);
          assert rotatedPattern == Reading(k, patternFrame, i);
          rotatedPatterns := rotatedPatterns + [rotatedPattern];
        }
        i := i + 1;
      }
    }

    /**
     * filter: filterR over all readings, then every frame still valid, in
     * order; nothing at all without readings. The readings are those
     * createRotatedPatterns made for the current frames (ReadingsStaged
     * shows they are staged).
     */
    method Filter()
      requires AllInTrace(trace, patternFrames) && rotatedPatterns == Readings(trace, patternFrames, |patternFrames|)
      requires AllStaged(trace, patternFrames, rotatedPatterns, 0, MaxLength(patternFrames))
      modifies this
      ensures trace == old(trace) && rotatedPatterns == old(rotatedPatterns)
      ensures patternFrames == SubFiltered(trace, old(patternFrames), rotatedPatterns)
      ensures filteredPatternFrames == old(filteredPatternFrames) + (if |rotatedPatterns| == 0 then [] else KeepValid(patternFrames))
    {
      if |rotatedPatterns| == 0 {
        return;
      }
      FilterR(rotatedPatterns, patternFrames, 0, MaxLength(patternFrames));
      PushValid();
    }

    /** The closing loop of filter: every frame whose flag is still set, in order. */
    method PushValid()
      modifies this
      ensures trace == old(trace) && rotatedPatterns == old(rotatedPatterns) && patternFrames == old(patternFrames)
      ensures filteredPatternFrames == old(filteredPatternFrames) + KeepValid(patternFrames)
    {
      var i := 0;
      while i < |patternFrames|
        invariant 0 <= i <= |patternFrames|
        invariant trace == old(trace) && rotatedPatterns == old(rotatedPatterns) && patternFrames == old(patternFrames)
        invariant filteredPatternFrames == old(filteredPatternFrames) + KeepValid(patternFrames[..i])
        decreases |patternFrames| - i
      {
        KeepValidSnoc(patternFrames, i);
        if patternFrames[i].valid {
          filteredPatternFrames := filteredPatternFrames + [patternFrames[i]];
        }
        i := i + 1;
      }
      assert patternFrames[..i] == patternFrames;
    }

    /** filterR on one list of readings; fs0 is the frame list as far as the filter reads it. */
    method FilterR(patterns: seq<RotatedPattern>, ghost fs0: seq<Frame>, ghost steps: nat, ghost bound: nat)
      requires AllStaged(trace, fs0, patterns, steps, bound) && Like(patternFrames, fs0)
      modifies this
      ensures trace == old(trace) && rotatedPatterns == old(rotatedPatterns) && filteredPatternFrames == old(filteredPatternFrames)
      ensures patternFrames == Clear(old(patternFrames), Invalidated(trace, fs0, patterns, steps, bound))
      decreases bound - steps, 1, 0
    {
      ghost var p0 := patternFrames;
      var completed, partition := SortPatterns(patterns, fs0);
      ChildrenReady(trace, fs0, patterns, steps, bound);
      assert Within(fs0, completed) by {
        assert forall i :: 0 <= i < |completed| ==> completed[i] in completed;
      }
      assert Within(fs0, patterns) by {
        assert forall i :: 0 <= i < |patterns| ==> Staged(trace, fs0, patterns[i], steps, bound);
      }
      ClearContained(completed, patterns, fs0);
      ghost var p1 := patternFrames;
      FilterPartition(partition, fs0, steps, bound);
      InvalidatedUnfold(trace, fs0, patterns, steps, bound, p0, p1, patternFrames);
    }

    /** The partition loop of filterR: increment every reading, then collect it as completed or under its key. */
    method SortPatterns(patterns: seq<RotatedPattern>, ghost fs0: seq<Frame>)
      returns (completed: seq<RotatedPattern>, partition: seq<(Event, seq<RotatedPattern>)>)
      requires (forall j :: 0 <= j < |patterns| ==> Ready(trace, fs0, patterns[j])) && Like(patternFrames, fs0)
      ensures completed == Completed(patterns)
      ensures partition == GroupByKey(Keyed(trace, fs0, patterns))
    {
      completed, partition := [], [];
      var i := 0;
      while i < |patterns|
        invariant 0 <= i <= |patterns|
        invariant completed == Completed(patterns[..i])
        invariant partition == GroupByKey(Keyed(trace, fs0, patterns[..i]))
        decreases |patterns| - i
      {
        SortStep(trace, fs0, patterns, i);
        var rotatedPattern := Increment(patterns[i]);
        if rotatedPattern.index == rotatedPattern.rotatedStart {
          completed := completed + [rotatedPattern];
        } else {
          var key := trace[patternFrames[rotatedPattern.frame].start + rotatedPattern.index];
          partition := Insert(partition, key, rotatedPattern);
        }
        i := i + 1;
      }
      assert patterns[..i] == patterns;
    }

    /** The loop over the completed readings: clear a frame contained in a different frame read in the list. */
    method ClearContained(completed: seq<RotatedPattern>, patterns: seq<RotatedPattern>, ghost fs0: seq<Frame>)
      requires Within(fs0, completed) && Within(fs0, patterns) && Like(patternFrames, fs0)
      modifies this
      ensures trace == old(trace) && rotatedPatterns == old(rotatedPatterns) && filteredPatternFrames == old(filteredPatternFrames)
      ensures patternFrames == Clear(old(patternFrames), ClearedBy(fs0, completed, patterns, |completed|))
    {
      ghost var p0 := patternFrames;
      var c := 0;
      while c < |completed|
        invariant 0 <= c <= |completed|
        invariant trace == old(trace) && rotatedPatterns == old(rotatedPatterns) && filteredPatternFrames == old(filteredPatternFrames)
        invariant patternFrames == Clear(p0, ClearedBy(fs0, completed, patterns, c))
        decreases |completed| - c
      {
        ClearIfContained(completed[c], patterns, fs0, p0, ClearedBy(fs0, completed, patterns, c));
        c := c + 1;
      }
    }

    /** The inner loop over the list: clear the completed reading's frame when a different frame's intervals contain its own. */
    method ClearIfContained(completedPattern: RotatedPattern, patterns: seq<RotatedPattern>, ghost fs0: seq<Frame>,
                            ghost p0: seq<Frame>, ghost gone: set<nat>)
      requires completedPattern.frame < |fs0| && Within(fs0, patterns) && Like(patternFrames, fs0)
      requires patternFrames == Clear(p0, gone)
      modifies this
      ensures trace == old(trace) && rotatedPatterns == old(rotatedPatterns) && filteredPatternFrames == old(filteredPatternFrames)
      ensures patternFrames == Clear(p0, gone + (if Hits(fs0, completedPattern, patterns, |patterns|) then {completedPattern.frame} else {}))
    {
      var r := 0;
      while r < |patterns|
        invariant 0 <= r <= |patterns|
        invariant trace == old(trace) && rotatedPatterns == old(rotatedPatterns) && filteredPatternFrames == old(filteredPatternFrames)
        invariant patternFrames == Clear(p0, gone + (if Hits(fs0, completedPattern, patterns, r) then {completedPattern.frame} else {}))
        decreases |patterns| - r
      {
        var rotatedPattern := patterns[r];
        if completedPattern.frame != rotatedPattern.frame {
          var contained := SubInterval(patternFrames[completedPattern.frame].intervals, patternFrames[rotatedPattern.frame].intervals);
          if contained {
            ClearAdd(p0, gone + (if Hits(fs0, completedPattern, patterns, r) then {completedPattern.frame} else {}), completedPattern.frame);
            patternFrames := patternFrames[completedPattern.frame := patternFrames[completedPattern.frame].(valid := false)];
          }
        }
        r := r + 1;
      }
    }

    /** The loop over the partition: filterR on every group, in first-key order. */
    method FilterPartition(partition: seq<(Event, seq<RotatedPattern>)>, ghost fs0: seq<Frame>, ghost steps: nat, ghost bound: nat)
      requires forall i :: 0 <= i < |partition| ==> AllStaged(trace, fs0, partition[i].1, steps + 1, bound)
      requires |partition| > 0 ==> steps < bound
      requires Like(patternFrames, fs0)
      modifies this
      ensures trace == old(trace) && rotatedPatterns == old(rotatedPatterns) && filteredPatternFrames == old(filteredPatternFrames)
      ensures patternFrames == Clear(old(patternFrames), InvalidatedGroups(trace, fs0, partition, |partition|, steps, bound))
      decreases bound - steps, 0, 0
    {
      ghost var p0 := patternFrames;
      var k := 0;
      while k < |partition|
        invariant 0 <= k <= |partition|
        invariant trace == old(trace) && rotatedPatterns == old(rotatedPatterns) && filteredPatternFrames == old(filteredPatternFrames)
        invariant patternFrames == Clear(p0, InvalidatedGroups(trace, fs0, partition, k, steps, bound))
        invariant Like(patternFrames, fs0)
        decreases |partition| - k
      {
        ghost var p1 := patternFrames;
        FilterR(partition[k].1, fs0, steps + 1, bound);
        GroupsStep(trace, fs0, partition, k, steps, bound, p0, p1, patternFrames);
        k := k + 1;
      }
    }
  }
}
