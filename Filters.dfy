/**
 * The rotation collapse filter (js/Filters.js). Every frame gets a canonical
 * rotation point; then all frames are advanced one body position at a time,
 * partitioned by the event they reach. Frames that come back to their
 * rotation point together are the same cycle read from different places:
 * the first of them is kept, with the intervals of all of them merged.
 */
module Rotate {
  import opened Intervals
  import opened IntervalFacts
  import opened Events
  import opened Grouping
  import opened Frames

  /** A frame with its rotation point and the body position reached so far. */
  datatype SortedPattern = SortedPattern(patternFrame: Frame, length: int, orderedStart: int, index: int)

  // ---------------------------------------------------------------------
  // init (js/Filters.js:12-37)
  // ---------------------------------------------------------------------

  /**
   * The stack height init's loop holds when it reaches split point i: one
   * for the first body event, plus the events at body positions 2..i.
   */
  function InitDepth(t: seq<Event>, f: Frame, i: int): int
    requires InTrace(t, f) && 1 <= i <= Length(f)
  {
    1 + Depth(t[f.start + 2..f.start + i + 1])
  }

  /** A place where the body may be cut: back at the height of the body's start. */
  predicate SplitPoint(t: seq<Event>, f: Frame, i: int)
    requires InTrace(t, f)
  {
    1 <= i < Length(f) && InitDepth(t, f, i) == 0
  }

  /** The trace line at body position i + 1. */
  function LineAt(t: seq<Event>, f: Frame, i: int): string
    requires InTrace(t, f) && 0 <= i < Length(f)
  {
    Line(t[f.start + i + 1])
  }

  /** The first line of the body rotated to start after split point os (os == length: not rotated). */
  function FirstLine(t: seq<Event>, f: Frame, os: int): string
    requires InTrace(t, f) && 1 <= os <= Length(f)
  {
    if os == Length(f) then LineAt(t, f, 0) else LineAt(t, f, os)
  }

  /**
   * os is the rotation point among the split points below n: no split point
   * below n has a smaller line; a chosen split point has a line strictly
   * smaller than the body's first line and than every earlier split point.
   */
  predicate BestBelow(t: seq<Event>, f: Frame, n: int, os: int)
    requires InTrace(t, f) && 1 <= n <= Length(f)
  {
    && 1 <= os <= Length(f)
    && (os < Length(f) ==> os < n && SplitPoint(t, f, os) && LexLess(LineAt(t, f, os), LineAt(t, f, 0)))
    && (forall i :: 1 <= i < n && SplitPoint(t, f, i) ==> !LexLess(LineAt(t, f, i), FirstLine(t, f, os)))
    && (os < Length(f) ==> forall i :: 1 <= i < os && SplitPoint(t, f, i) ==> LexLess(LineAt(t, f, os), LineAt(t, f, i)))
  }

  /** The rotation point init chooses, over the whole body. */
  predicate IsOrderedStart(t: seq<Event>, f: Frame, os: int)
    requires InTrace(t, f) && 1 <= Length(f)
  {
    BestBelow(t, f, Length(f), os)
  }

  /** The rotation point among the split points below n, as init's loop has it on reaching n. */
  function BestUpTo(t: seq<Event>, f: Frame, n: int): (os: int)
    requires InTrace(t, f) && 1 <= n <= Length(f)
    ensures 1 <= os <= Length(f)
    decreases n
  {
    if n == 1 then Length(f)
    else
      var os := BestUpTo(t, f, n - 1);
      if SplitPoint(t, f, n - 1) && LexLess(LineAt(t, f, n - 1), FirstLine(t, f, os)) then n - 1 else os
  }

  function OrderedStart(t: seq<Event>, f: Frame): int
    requires InTrace(t, f) && 1 <= Length(f)
  {
    BestUpTo(t, f, Length(f))
  }

  /** One more split point considered keeps BestBelow. */
  lemma BestStep(t: seq<Event>, f: Frame, n: int, os: int)
    requires InTrace(t, f) && 1 <= n < Length(f) && BestBelow(t, f, n, os)
    ensures BestBelow(t, f, n + 1,
      if SplitPoint(t, f, n) && LexLess(LineAt(t, f, n), FirstLine(t, f, os)) then n else os)
  {
    var cur := FirstLine(t, f, os);
    if SplitPoint(t, f, n) && LexLess(LineAt(t, f, n), cur) {
      var best := LineAt(t, f, n);
      assert FirstLine(t, f, n) == best;
      LexIrreflexive(best);
      if os < Length(f) {
        LexTransitive(best, cur, LineAt(t, f, 0));
      }
      forall i | 1 <= i < n && SplitPoint(t, f, i)
        ensures LexLess(best, LineAt(t, f, i)) && !LexLess(LineAt(t, f, i), best)
      {
        var li := LineAt(t, f, i);
        LexTotal(cur, li);
        if li != cur {
          LexTransitive(best, cur, li);
        }
        LexTotal(best, li);
      }
    } else {
      if os < Length(f) && SplitPoint(t, f, n) {
        assert FirstLine(t, f, os) == LineAt(t, f, os);
        LexTotal(LineAt(t, f, os), LineAt(t, f, n));
      }
    }
  }

  /** The recursion computes the rotation point among the split points below n. */
  lemma {:induction false} BestUpToSpec(t: seq<Event>, f: Frame, n: int)
    requires InTrace(t, f) && 1 <= n <= Length(f)
    ensures BestBelow(t, f, n, BestUpTo(t, f, n))
    decreases n
  {
    if n > 1 {
      BestUpToSpec(t, f, n - 1);
      BestStep(t, f, n - 1, BestUpTo(t, f, n - 1));
    }
  }

  /**
   * The rotation point is determined by the body alone: at most one
   * position meets the description, and OrderedStart is it.
   */
  lemma OrderedStartUnique(t: seq<Event>, f: Frame, a: int, b: int)
    requires InTrace(t, f) && 1 <= Length(f)
    requires IsOrderedStart(t, f, a) && IsOrderedStart(t, f, b)
    ensures a == b
  {
    if a != b {
      var (x, y) := if a < b then (a, b) else (b, a);
      assert IsOrderedStart(t, f, x) && IsOrderedStart(t, f, y);
      // x is a split point before y, so y's line is strictly below x's,
      // which x's own description rules out.
      LexTotal(LineAt(t, f, x), FirstLine(t, f, y));
    }
  }

  lemma OrderedStartSpec(t: seq<Event>, f: Frame)
    requires InTrace(t, f) && 1 <= Length(f)
    ensures IsOrderedStart(t, f, OrderedStart(t, f))
  {
    BestUpToSpec(t, f, Length(f));
  }

  /** The height before body position i + 2 follows from the one before i + 1. */
  lemma InitDepthStep(t: seq<Event>, f: Frame, i: int)
    requires InTrace(t, f) && 1 <= i < Length(f)
    ensures InitDepth(t, f, i + 1) == InitDepth(t, f, i) + Delta(t[f.start + i + 1])
  {
    var s := t[f.start + 2..f.start + i + 2];
    assert s[..|s| - 1] == t[f.start + 2..f.start + i + 1];
  }

  /** One pass of init's loop: the split test, the comparison and the height update at position i. */
  lemma InitStep(t: seq<Event>, f: Frame, i: int, os: int)
    requires InTrace(t, f) && 1 <= i < Length(f) && os == BestUpTo(t, f, i)
    ensures SplitPoint(t, f, i) <==> InitDepth(t, f, i) == 0
    ensures Line(t[f.start + i + 1]) == LineAt(t, f, i)
    ensures BestUpTo(t, f, i + 1) ==
      if InitDepth(t, f, i) == 0 && LexLess(Line(t[f.start + i + 1]), FirstLine(t, f, os)) then i else os
    ensures InitDepth(t, f, i + 1) == InitDepth(t, f, i) + Delta(t[f.start + i + 1])
  {
    InitDepthStep(t, f, i);
  }

  /** init: the rotation point of the frame, with the index starting there. */
  method Init(t: seq<Event>, f: Frame) returns (p: SortedPattern)
    requires InTrace(t, f) && 1 <= Length(f)
    ensures p == SortedPattern(f, Length(f), OrderedStart(t, f), OrderedStart(t, f))
    ensures IsOrderedStart(t, f, p.orderedStart)
  {
    var length := f.end - f.start;
    var lastEventLine := Line(t[f.start + 1]);
    var orderedStart := length;
    var stackDepth := 1;
    var i := 1;
    while i < length
      invariant 1 <= i <= length
      invariant orderedStart == BestUpTo(t, f, i)
      invariant 1 <= orderedStart <= length
      invariant lastEventLine == FirstLine(t, f, orderedStart)
      invariant stackDepth == InitDepth(t, f, i)
      decreases length - i
    {
      var eventLine := Line(t[f.start + i + 1]);
      InitStep(t, f, i, orderedStart);
      if stackDepth == 0 && LexLess(eventLine, lastEventLine) {
        lastEventLine := eventLine;
        orderedStart := i;
      }
      if t[f.start + i + 1].Enter? {
        stackDepth := stackDepth + 1;
      } else {
        stackDepth := stackDepth - 1;
      }
      i := i + 1;
    }
    p := SortedPattern(f, length, orderedStart, orderedStart);
    OrderedStartSpec(t, f);
  }

  // ---------------------------------------------------------------------
  // incrementIndex (js/Filters.js:39-44)
  // ---------------------------------------------------------------------

  /** incrementIndex: one body position on, from the last position back to the first. */
  function Increment(p: SortedPattern): (q: SortedPattern)
    ensures q.patternFrame == p.patternFrame && q.length == p.length && q.orderedStart == p.orderedStart
    ensures 0 <= p.index ==> 1 <= q.index <= Max(p.length, 1)
  {
    var i := p.index + 1;
    if i > p.length then p.(index := 1) else p.(index := i)
  }

  /** Rotation point and index both lie in the body positions 1..length. */
  predicate Placed(p: SortedPattern)
  {
    1 <= p.orderedStart <= p.length && 1 <= p.index <= p.length
  }

  /** How many increments bring the index back to the rotation point. */
  function Remaining(p: SortedPattern): (r: int)
    requires Placed(p)
    ensures 1 <= r <= p.length
  {
    if p.index < p.orderedStart then p.orderedStart - p.index else p.length - p.index + p.orderedStart
  }

  /** An increment either reaches the rotation point (the last step) or takes one step off. */
  lemma IncrementRemaining(p: SortedPattern)
    requires Placed(p)
    ensures Placed(Increment(p))
    ensures Increment(p).index == p.orderedStart <==> Remaining(p) == 1
    ensures Remaining(p) > 1 ==> Remaining(Increment(p)) == Remaining(p) - 1
  {
  }

  /** The pattern after k increments. */
  function Advance(p: SortedPattern, k: nat): (q: SortedPattern)
    ensures q.patternFrame == p.patternFrame && q.length == p.length && q.orderedStart == p.orderedStart
  {
    if k == 0 then p else Increment(Advance(p, k - 1))
  }

  /**
   * Starting at its rotation point, a pattern of length n first returns to
   * it after exactly n increments.
   */
  lemma {:induction false} IncrementCycle(p: SortedPattern, k: nat)
    requires Placed(p) && p.index == p.orderedStart && 1 <= k <= p.length
    ensures Placed(Advance(p, k))
    ensures Advance(p, k).index == p.orderedStart <==> k == p.length
    ensures k < p.length ==> Remaining(Advance(p, k)) == p.length - k
  {
    var prev := Advance(p, k - 1);
    if k > 1 {
      IncrementCycle(p, k - 1);
    }
    assert Placed(prev) && Remaining(prev) == p.length - (k - 1);
    IncrementRemaining(prev);
    assert Advance(p, k) == Increment(prev);
  }

  // ---------------------------------------------------------------------
  // filterR (js/Filters.js:72-110) as a function of the pattern list
  // ---------------------------------------------------------------------

  /** A pattern whose positions lie in its frame's body. */
  predicate Ready(t: seq<Event>, p: SortedPattern)
  {
    InTrace(t, p.patternFrame) && p.length == Length(p.patternFrame) && Placed(p)
  }

  /**
   * A pattern as a call of filterR receives it, `steps` increments after
   * init: it is that many steps from home less than its length.
   */
  predicate Staged(t: seq<Event>, p: SortedPattern, steps: nat, bound: nat)
  {
    Ready(t, p) && Remaining(p) + steps == p.length && p.length <= bound
  }

  predicate AllStaged(t: seq<Event>, list: seq<SortedPattern>, steps: nat, bound: nat)
  {
    forall i :: 0 <= i < |list| ==> Staged(t, list[i], steps, bound)
  }

  /** The event at the pattern's current body position, the partition key. */
  function Key(t: seq<Event>, q: SortedPattern): Event
    requires InTrace(t, q.patternFrame) && 1 <= q.index <= Length(q.patternFrame)
  {
    t[q.patternFrame.start + q.index]
  }

  /** The patterns that are back at their rotation point after one more increment, in list order. */
  function Completed(list: seq<SortedPattern>): seq<SortedPattern>
  {
    if |list| == 0 then []
    else
      var q := Increment(list[|list| - 1]);
      Completed(list[..|list| - 1]) + (if q.index == q.orderedStart then [q] else [])
  }

  /** The others, each with its key, in list order. */
  function Keyed(t: seq<Event>, list: seq<SortedPattern>): seq<(Event, SortedPattern)>
    requires forall i :: 0 <= i < |list| ==> Ready(t, list[i])
  {
    if |list| == 0 then []
    else
      var p := list[|list| - 1];
      assert Ready(t, p);
      var q := Increment(p);
      Keyed(t, list[..|list| - 1]) + (if q.index == q.orderedStart then [] else [(Key(t, q), q)])
  }

  /** What one call of filterR pushes: a lone pattern's frame, or the completed patterns folded into the first. */
  datatype Emission = Alone(pattern: SortedPattern) | Folded(head: SortedPattern, others: seq<SortedPattern>)

  /** The head's intervals merged with those of the first n others, in order. */
  function MergeFrom(iv: seq<Interval>, others: seq<SortedPattern>, n: nat): seq<Interval>
    requires n <= |others|
  {
    if n == 0 then iv else Merge(MergeFrom(iv, others, n - 1), others[n - 1].patternFrame.intervals)
  }

  /** The frame an emission pushes. */
  function Emitted(e: Emission): Frame
  {
    match e
    case Alone(p) => p.patternFrame
    case Folded(h, others) =>
      var iv := MergeFrom(h.patternFrame.intervals, others, |others|);
      h.patternFrame.(intervals := iv, span := Span(iv))
  }

  function EmittedFrames(es: seq<Emission>): (r: seq<Frame>)
    ensures |r| == |es|
  {
    if |es| == 0 then [] else EmittedFrames(es[..|es| - 1]) + [Emitted(es[|es| - 1])]
  }

  /** Every group of the partition holds patterns one step further on. */
  lemma {:induction false} KeyedStaged(t: seq<Event>, list: seq<SortedPattern>, steps: nat, bound: nat)
    requires AllStaged(t, list, steps, bound)
    ensures forall x :: x in Keyed(t, list) ==> Staged(t, x.1, steps + 1, bound)
    ensures forall q :: q in Completed(list) ==> Ready(t, q) && q.length == steps + 1
  {
    if |list| > 0 {
      var init := list[..|list| - 1];
      KeyedStaged(t, init, steps, bound);
      IncrementRemaining(list[|list| - 1]);
    }
  }

  lemma ChildrenStaged(t: seq<Event>, list: seq<SortedPattern>, steps: nat, bound: nat)
    requires AllStaged(t, list, steps, bound)
    ensures forall i :: 0 <= i < |GroupByKey(Keyed(t, list))| ==>
      AllStaged(t, GroupByKey(Keyed(t, list))[i].1, steps + 1, bound)
  {
    var pairs := Keyed(t, list);
    var gs := GroupByKey(pairs);
    KeyedStaged(t, list, steps, bound);
    GroupByKeySpec(pairs);
    forall i, j | 0 <= i < |gs| && 0 <= j < |gs[i].1| ensures Staged(t, gs[i].1[j], steps + 1, bound) {
      assert gs[i].1 == ValuesOf(pairs, gs[i].0);
      ValuesOfMember(pairs, gs[i].0, gs[i].1[j]);
    }
  }

  /** filterR on a list of patterns all `steps` increments past init: the emissions, in push order. */
  function FilterR(t: seq<Event>, list: seq<SortedPattern>, steps: nat, bound: nat): seq<Emission>
    requires AllStaged(t, list, steps, bound)
    decreases bound - steps, 2, 0
  {
    if |list| == 1 then [Alone(list[0])] else Head(list) + Children(t, list, steps, bound)
  }

  /** The completed patterns folded into the first of them, if there are any. */
  function Head(list: seq<SortedPattern>): seq<Emission>
  {
    var done := Completed(list);
    if |done| == 0 then [] else [Folded(done[0], done[1..])]
  }

  /** filterR on every group of the partition, in first-key order. */
  function Children(t: seq<Event>, list: seq<SortedPattern>, steps: nat, bound: nat): seq<Emission>
    requires AllStaged(t, list, steps, bound)
    decreases bound - steps, 1, 0
  {
    ChildrenReady(t, list, steps, bound);
    var gs := GroupByKey(Keyed(t, list));
    FilterGroups(t, gs, |gs|, steps, bound)
  }

  /** The recursive calls on the first n groups of a partition made after `steps` increments. */
  function FilterGroups(t: seq<Event>, gs: seq<(Event, seq<SortedPattern>)>, n: nat, steps: nat, bound: nat): seq<Emission>
    requires n <= |gs| && (n > 0 ==> steps < bound)
    requires forall i :: 0 <= i < |gs| ==> AllStaged(t, gs[i].1, steps + 1, bound)
    decreases bound - steps, 0, n
  {
    if n == 0 then []
    else FilterGroups(t, gs, n - 1, steps, bound) + FilterR(t, gs[n - 1].1, steps + 1, bound)
  }

  /** The pattern list filter builds from the first n frames: one pattern per frame, at its rotation point. */
  function Patterns(t: seq<Event>, fs: seq<Frame>, n: nat): (ps: seq<SortedPattern>)
    requires n <= |fs| && forall i :: 0 <= i < |fs| ==> InTrace(t, fs[i]) && 1 <= Length(fs[i])
    ensures |ps| == n
  {
    if n == 0 then []
    else
      var f := fs[n - 1];
      Patterns(t, fs, n - 1) + [SortedPattern(f, Length(f), OrderedStart(t, f), OrderedStart(t, f))]
  }

  /** The patterns of init start out staged at step 0. */
  lemma {:induction false} PatternsStaged(t: seq<Event>, fs: seq<Frame>, n: nat)
    requires n <= |fs| && forall i :: 0 <= i < |fs| ==> InTrace(t, fs[i]) && 1 <= Length(fs[i])
    ensures AllStaged(t, Patterns(t, fs, n), 0, MaxLength(fs))
  {
    if n > 0 {
      PatternsStaged(t, fs, n - 1);
      OrderedStartSpec(t, fs[n - 1]);
      var ps := Patterns(t, fs, n);
      assert forall i :: 0 <= i < n - 1 ==> ps[i] == Patterns(t, fs, n - 1)[i];
    }
  }

  /** What filter pushes for a list of frames: filterR over their patterns, from step 0. */
  function FilterAll(t: seq<Event>, fs: seq<Frame>): seq<Emission>
    requires forall i :: 0 <= i < |fs| ==> InTrace(t, fs[i]) && 1 <= Length(fs[i])
  {
    PatternsStaged(t, fs, |fs|);
    FilterR(t, Patterns(t, fs, |fs|), 0, MaxLength(fs))
  }

  /** filter with no frames pushes nothing. */
  lemma FilterNothing(t: seq<Event>, fs: seq<Frame>)
    requires |fs| == 0
    ensures FilterAll(t, fs) == []
  {
    assert Patterns(t, fs, 0) == [];
    assert Keyed(t, []) == [] && Completed([]) == [];
  }

  // ---------------------------------------------------------------------
  // Steps of the loops of filterR
  // ---------------------------------------------------------------------

  /** One pass of the partition loop: the pattern is either completed or pushed under its key. */
  lemma SortStep(t: seq<Event>, list: seq<SortedPattern>, i: nat)
    requires i < |list| && forall j :: 0 <= j < |list| ==> Ready(t, list[j])
    ensures Ready(t, list[i]) && Ready(t, Increment(list[i]))
    ensures Completed(list[..i + 1]) == Completed(list[..i]) +
      (if Increment(list[i]).index == list[i].orderedStart then [Increment(list[i])] else [])
    ensures Increment(list[i]).index != list[i].orderedStart ==>
      GroupByKey(Keyed(t, list[..i + 1])) == Insert(GroupByKey(Keyed(t, list[..i])), Key(t, Increment(list[i])), Increment(list[i]))
    ensures Increment(list[i]).index == list[i].orderedStart ==>
      GroupByKey(Keyed(t, list[..i + 1])) == GroupByKey(Keyed(t, list[..i]))
  {
    IncrementRemaining(list[i]);
    assert list[..i + 1][..i] == list[..i];
    var pairs := Keyed(t, list[..i]);
    var q := Increment(list[i]);
    if q.index != q.orderedStart {
      assert Keyed(t, list[..i + 1]) == pairs + [(Key(t, q), q)];
      assert (pairs + [(Key(t, q), q)])[..|pairs|] == pairs;
    } else {
      assert Keyed(t, list[..i + 1]) == pairs + [];
      assert pairs + [] == pairs;
    }
  }

  lemma {:induction false} EmittedFramesConcat(a: seq<Emission>, b: seq<Emission>)
    ensures EmittedFrames(a + b) == EmittedFrames(a) + EmittedFrames(b)
    decreases |b|
  {
    if |b| == 0 {
      assert a + b == a;
    } else {
      EmittedFramesConcat(a, b[..|b| - 1]);
      assert (a + b)[..|a + b| - 1] == a + b[..|b| - 1];
    }
  }

  /** One pass of the loop over the partition: the k-th group's emissions follow those of the first k. */
  lemma FilterGroupsStep(t: seq<Event>, gs: seq<(Event, seq<SortedPattern>)>, k: nat, steps: nat, bound: nat,
                         base: seq<Frame>, frames: seq<Frame>)
    requires k < |gs| && steps < bound
    requires forall i :: 0 <= i < |gs| ==> AllStaged(t, gs[i].1, steps + 1, bound)
    requires frames == base + EmittedFrames(FilterGroups(t, gs, k, steps, bound)) + EmittedFrames(FilterR(t, gs[k].1, steps + 1, bound))
    ensures frames == base + EmittedFrames(FilterGroups(t, gs, k + 1, steps, bound))
  {
    var done := FilterGroups(t, gs, k, steps, bound);
    var next := FilterR(t, gs[k].1, steps + 1, bound);
    FilterGroupsSnoc(t, gs, k, steps, bound);
    EmittedFramesConcat(done, next);
    FramesAssoc(base, EmittedFrames(done), EmittedFrames(next));
  }

  lemma FramesAssoc(a: seq<Frame>, b: seq<Frame>, c: seq<Frame>)
    ensures a + b + c == a + (b + c)
  {
  }

  lemma FilterGroupsSnoc(t: seq<Event>, gs: seq<(Event, seq<SortedPattern>)>, k: nat, steps: nat, bound: nat)
    requires k < |gs| && steps < bound
    requires forall i :: 0 <= i < |gs| ==> AllStaged(t, gs[i].1, steps + 1, bound)
    ensures FilterGroups(t, gs, k + 1, steps, bound) == FilterGroups(t, gs, k, steps, bound) + FilterR(t, gs[k].1, steps + 1, bound)
  {
  }

  /** A call on two or more patterns pushes the folded completed patterns, then what the groups push. */
  lemma FilterRUnfold(t: seq<Event>, list: seq<SortedPattern>, steps: nat, bound: nat,
                      folded: seq<Frame>, base: seq<Frame>, frames: seq<Frame>)
    requires AllStaged(t, list, steps, bound) && |list| != 1
    requires folded == EmittedFrames(Head(list))
    requires frames == base + folded + EmittedFrames(Children(t, list, steps, bound))
    ensures frames == base + EmittedFrames(FilterR(t, list, steps, bound))
  {
    EmittedFramesConcat(Head(list), Children(t, list, steps, bound));
    FramesAssoc(base, folded, EmittedFrames(Children(t, list, steps, bound)));
  }

  /** What a call of filterR needs to recurse: the groups are staged one step on, and there is a step left when anything is. */
  predicate ChildrenOk(t: seq<Event>, list: seq<SortedPattern>, steps: nat, bound: nat)
    requires forall i :: 0 <= i < |list| ==> Ready(t, list[i])
  {
    && (forall i :: 0 <= i < |GroupByKey(Keyed(t, list))| ==> AllStaged(t, GroupByKey(Keyed(t, list))[i].1, steps + 1, bound))
    && (|GroupByKey(Keyed(t, list))| > 0 ==> steps < bound)
  }

  lemma ChildrenReady(t: seq<Event>, list: seq<SortedPattern>, steps: nat, bound: nat)
    requires AllStaged(t, list, steps, bound)
    ensures ChildrenOk(t, list, steps, bound)
  {
    ChildrenStaged(t, list, steps, bound);
    if |list| > 0 {
      assert Staged(t, list[0], steps, bound);
    }
  }

  // ---------------------------------------------------------------------
  // The filter (js/Filters.js:49-119)
  // ---------------------------------------------------------------------

  /** calculateSpan: the total length of the intervals. */
  method CalculateSpan(intervals: seq<Interval>) returns (span: int)
    ensures span == Span(intervals)
  {
    span := 0;
    var i := 0;
    while i < |intervals|
      invariant 0 <= i <= |intervals|
      invariant span == Span(intervals[..i])
      decreases |intervals| - i
    {
      SpanConcat(intervals[..i], [intervals[i]]);
      assert intervals[..i + 1] == intervals[..i] + [intervals[i]];
      assert Span([intervals[i]]) == Len(intervals[i]) by {
        assert [intervals[i]][1..] == [];
      }
      span := span + (intervals[i].hi - intervals[i].lo);
      i := i + 1;
    }
    assert intervals[..i] == intervals;
  }

  class RotateFilter {
    var trace: seq<Event>
    var patternFrames: seq<Frame>
    var filteredPatternFrames: seq<Frame>

    constructor (trace: seq<Event>, patternFrames: seq<Frame>)
      ensures this.trace == trace && this.patternFrames == patternFrames && filteredPatternFrames == []
    {
      this.trace := trace;
      this.patternFrames := patternFrames;
      filteredPatternFrames := [];
    }

    /** filter: one pattern per frame at its rotation point, then filterR over all of them. */
    method Filter()
      requires forall i :: 0 <= i < |patternFrames| ==> InTrace(trace, patternFrames[i]) && 1 <= Length(patternFrames[i])
      modifies this
      ensures trace == old(trace) && patternFrames == old(patternFrames)
      ensures filteredPatternFrames == old(filteredPatternFrames) + EmittedFrames(FilterAll(trace, patternFrames))
    {
      if |patternFrames| == 0 {
        FilterNothing(trace, patternFrames);
        return;
      }
      var patternList: seq<SortedPattern> := [];
      var i := 0;
      while i < |patternFrames|
        invariant 0 <= i <= |patternFrames|
        invariant trace == old(trace) && patternFrames == old(patternFrames)
        invariant filteredPatternFrames == old(filteredPatternFrames)
        invariant patternList == Patterns(trace, patternFrames, i)
        decreases |patternFrames| - i
      {
        var sortedPattern := Init(trace, patternFrames[i]);
        patternList := patternList + [sortedPattern];
        i := i + 1;
      }
      PatternsStaged(trace, patternFrames, i);
      FilterList(patternList, 0, MaxLength(patternFrames));
    }

    /** filterR on one list of patterns. */
    method FilterList(patternList: seq<SortedPattern>, ghost steps: nat, ghost bound: nat)
      requires AllStaged(trace, patternList, steps, bound)
      modifies this
      ensures trace == old(trace) && patternFrames == old(patternFrames)
      ensures filteredPatternFrames == old(filteredPatternFrames) + EmittedFrames(FilterR(trace, patternList, steps, bound))
      decreases bound - steps, 1, 0
    {
      if |patternList| == 1 {
        filteredPatternFrames := filteredPatternFrames + [patternList[0].patternFrame];
        return;
      }
      ghost var base := filteredPatternFrames;
      var completed, partition := SortPatterns(patternList);
      ghost var folded: seq<Frame> := [];
      if |completed| > 0 {
        var patternFrame := FoldCompleted(completed);
        filteredPatternFrames := filteredPatternFrames + [patternFrame];
        folded := [patternFrame];
      }
      assert folded == EmittedFrames(Head(patternList));
      ChildrenReady(trace, patternList, steps, bound);
      FilterPartition(partition, steps, bound, base + folded);
      FilterRUnfold(trace, patternList, steps, bound, folded, base, filteredPatternFrames);
    }

    /** The partition loop of filterR: increment every pattern, then collect it as completed or under its key. */
    method SortPatterns(patternList: seq<SortedPattern>)
      returns (completed: seq<SortedPattern>, partition: seq<(Event, seq<SortedPattern>)>)
      requires forall j :: 0 <= j < |patternList| ==> Ready(trace, patternList[j])
      ensures completed == Completed(patternList)
      ensures partition == GroupByKey(Keyed(trace, patternList))
    {
      completed, partition := [], [];
      var i := 0;
      while i < |patternList|
        invariant 0 <= i <= |patternList|
        invariant completed == Completed(patternList[..i])
        invariant partition == GroupByKey(Keyed(trace, patternList[..i]))
        decreases |patternList| - i
      {
        SortStep(trace, patternList, i);
        var sortedPattern := Increment(patternList[i]);
        if sortedPattern.orderedStart == sortedPattern.index {
          completed := completed + [sortedPattern];
        } else {
          var key := trace[sortedPattern.patternFrame.start + sortedPattern.index];
          partition := Insert(partition, key, sortedPattern);
        }
        i := i + 1;
      }
      assert patternList[..i] == patternList;
    }

    /** The completed patterns folded into the first: merged intervals, span recomputed. */
    method FoldCompleted(completed: seq<SortedPattern>) returns (patternFrame: Frame)
      requires |completed| > 0
      ensures patternFrame == Emitted(Folded(completed[0], completed[1..]))
    {
      patternFrame := completed[0].patternFrame;
      var i := 1;
      while i < |completed|
        invariant 1 <= i <= |completed|
        invariant patternFrame == completed[0].patternFrame.(intervals := MergeFrom(completed[0].patternFrame.intervals, completed[1..], i - 1))
        decreases |completed| - i
      {
        var newIntervals := completed[i].patternFrame.intervals;
        assert newIntervals == completed[1..][i - 1].patternFrame.intervals;
        var merged := MergeIntervals(patternFrame.intervals, newIntervals);
        patternFrame := patternFrame.(intervals := merged);
        i := i + 1;
      }
      var span := CalculateSpan(patternFrame.intervals);
      patternFrame := patternFrame.(span := span);
    }

    /** The loop over the partition: filterR on every group, in first-key order. */
    method FilterPartition(partition: seq<(Event, seq<SortedPattern>)>, ghost steps: nat, ghost bound: nat, ghost base: seq<Frame>)
      requires forall i :: 0 <= i < |partition| ==> AllStaged(trace, partition[i].1, steps + 1, bound)
      requires |partition| > 0 ==> steps < bound
      requires filteredPatternFrames == base
      modifies this
      ensures trace == old(trace) && patternFrames == old(patternFrames)
      ensures filteredPatternFrames == base + EmittedFrames(FilterGroups(trace, partition, |partition|, steps, bound))
      decreases bound - steps, 0, 0
    {
      var k := 0;
      while k < |partition|
        invariant 0 <= k <= |partition|
        invariant trace == old(trace) && patternFrames == old(patternFrames)
        invariant filteredPatternFrames == base + EmittedFrames(FilterGroups(trace, partition, k, steps, bound))
        decreases |partition| - k
      {
        ghost var t := trace;
        FilterList(partition[k].1, steps + 1, bound);
        FilterGroupsStep(t, partition, k, steps, bound, base, filteredPatternFrames);
        k := k + 1;
      }
    }
  }
}
