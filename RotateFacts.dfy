/**
 * What the rotation collapse filter promises: every input frame is either
 * pushed alone or folded into exactly one pushed frame, so the output is
 * never longer than the input; frames are folded only with frames of the
 * same length that came back to their rotation point together; and a
 * folded frame covers exactly the union of its members' intervals.
 */
module RotateFacts {
  import opened Intervals
  import opened IntervalFacts
  import opened Events
  import opened Grouping
  import opened Frames
  import opened Rotate

  /** The frames of a list of patterns, in order. */
  function FramesOf(ps: seq<SortedPattern>): (r: seq<Frame>)
    ensures |r| == |ps|
  {
    if |ps| == 0 then [] else FramesOf(ps[..|ps| - 1]) + [ps[|ps| - 1].patternFrame]
  }

  /** The input frames an emission accounts for: a lone frame, or the head and every frame folded into it. */
  function Members(e: Emission): (r: seq<Frame>)
    ensures |r| >= 1
  {
    match e
    case Alone(p) => [p.patternFrame]
    case Folded(h, others) => [h.patternFrame] + FramesOf(others)
  }

  function AllMembers(es: seq<Emission>): (r: seq<Frame>)
    ensures |r| >= |es|
  {
    if |es| == 0 then [] else AllMembers(es[..|es| - 1]) + Members(es[|es| - 1])
  }

  lemma {:induction false} FramesOfConcat(a: seq<SortedPattern>, b: seq<SortedPattern>)
    ensures FramesOf(a + b) == FramesOf(a) + FramesOf(b)
    decreases |b|
  {
    if |b| > 0 {
      FramesOfConcat(a, b[..|b| - 1]);
      assert (a + b)[..|a + b| - 1] == a + b[..|b| - 1];
    } else {
      assert a + b == a;
    }
  }

  lemma FramesOfSingle(x: SortedPattern)
    ensures FramesOf([x]) == [x.patternFrame]
  {
    assert [x][..0] == [];
  }

  lemma {:induction false} AllMembersConcat(a: seq<Emission>, b: seq<Emission>)
    ensures AllMembers(a + b) == AllMembers(a) + AllMembers(b)
    decreases |b|
  {
    if |b| > 0 {
      var init := b[..|b| - 1];
      AllMembersConcat(a, init);
      var last := Members(b[|b| - 1]);
      assert AllMembers(a + b) == AllMembers(a + init) + last by {
        assert (a + b)[..|a + b| - 1] == a + init && (a + b)[|a + b| - 1] == b[|b| - 1];
      }
      FramesAssoc(AllMembers(a), AllMembers(init), last);
    } else {
      assert a + b == a;
    }
  }

  lemma LastSplit<T>(s: seq<T>)
    requires |s| > 0
    ensures s == s[..|s| - 1] + [s[|s| - 1]]
  {
  }

  /** Taking out the element at i takes one occurrence out of the multiset. */
  lemma RemoveAt<T>(b: seq<T>, i: nat)
    requires i < |b|
    ensures b == b[..i] + [b[i]] + b[i + 1..]
    ensures multiset(b[..i] + b[i + 1..]) == multiset(b) - multiset{b[i]}
  {
    assert b == b[..i] + [b[i]] + b[i + 1..];
  }

  lemma JoinSnoc(a: seq<Frame>, b: seq<Frame>, c: seq<Frame>, f: Frame)
    requires multiset(a) + multiset(b) == multiset(c)
    ensures multiset(a + [f]) + multiset(b) == multiset(c + [f])
    ensures multiset(a) + multiset(b + [f]) == multiset(c + [f])
  {
  }

  lemma Reinsert(s: seq<Frame>, l: seq<Frame>, r: seq<Frame>, f: Frame)
    requires multiset(s) == multiset(l + r)
    ensures multiset(s + [f]) == multiset(l + [f] + r)
  {
  }

  lemma Join(x: seq<Frame>, y: seq<Frame>, a: seq<Frame>, b: seq<Frame>, c: seq<Frame>)
    requires multiset(x) == multiset(a) && multiset(y) == multiset(b) && multiset(a) + multiset(b) == multiset(c)
    ensures multiset(x + y) == multiset(c)
  {
  }

  /** Patterns that are a permutation of each other have frames that are a permutation of each other. */
  lemma {:induction false} FramesOfPerm(a: seq<SortedPattern>, b: seq<SortedPattern>)
    requires multiset(a) == multiset(b)
    ensures multiset(FramesOf(a)) == multiset(FramesOf(b))
    decreases |a|
  {
    if |a| == 0 {
      assert |b| == |multiset(b)| == 0;
    } else {
      var x := a[|a| - 1];
      var a' := a[..|a| - 1];
      LastSplit(a);
      assert x in multiset(b);
      var i :| 0 <= i < |b| && b[i] == x;
      var b' := b[..i] + b[i + 1..];
      RemoveAt(b, i);
      FramesOfPerm(a', b');
      FramesOfSingle(x);
      FramesOfConcat(b[..i], [x]);
      FramesOfConcat(b[..i] + [x], b[i + 1..]);
      FramesOfConcat(b[..i], b[i + 1..]);
      FramesOfConcat(a', [x]);
      Reinsert(FramesOf(a'), FramesOf(b[..i]), FramesOf(b[i + 1..]), x.patternFrame);
    }
  }

  /** Every pattern of the list either completes or goes into the partition; incrementing changes no pattern's frame. */
  lemma {:induction false} SplitFrames(t: seq<Event>, list: seq<SortedPattern>)
    requires forall i :: 0 <= i < |list| ==> Ready(t, list[i])
    ensures multiset(FramesOf(Completed(list))) + multiset(FramesOf(Values(Keyed(t, list)))) == multiset(FramesOf(list))
  {
    if |list| > 0 {
      var init := list[..|list| - 1];
      var p := list[|list| - 1];
      assert Ready(t, p);
      var q := Increment(p);
      SplitFrames(t, init);
      var pairs := Keyed(t, init);
      assert FramesOf(list) == FramesOf(init) + [p.patternFrame];
      if q.index == q.orderedStart {
        assert Completed(list) == Completed(init) + [q];
        FramesOfConcat(Completed(init), [q]);
        assert Keyed(t, list) == pairs + [];
        assert pairs + [] == pairs;
        JoinSnoc(FramesOf(Completed(init)), FramesOf(Values(pairs)), FramesOf(init), p.patternFrame);
      } else {
        assert Completed(list) == Completed(init) + [];
        assert Completed(init) + [] == Completed(init);
        assert Keyed(t, list) == pairs + [(Key(t, q), q)];
        assert (pairs + [(Key(t, q), q)])[..|pairs|] == pairs;
        assert Values(Keyed(t, list)) == Values(pairs) + [q];
        FramesOfConcat(Values(pairs), [q]);
        JoinSnoc(FramesOf(Completed(init)), FramesOf(Values(pairs)), FramesOf(init), p.patternFrame);
      }
    }
  }

  lemma {:induction false} FlattenSnoc<K, V>(gs: seq<(K, seq<V>)>, n: nat)
    requires n < |gs|
    ensures Flatten(gs[..n + 1]) == Flatten(gs[..n]) + gs[n].1
  {
    if n == 0 {
      assert gs[..1] == [gs[0]];
      assert gs[..1][1..] == [];
      assert gs[..0] == [];
    } else {
      FlattenSnoc(gs[1..], n - 1);
      assert gs[..n + 1][1..] == gs[1..][..n];
      assert gs[..n][1..] == gs[1..][..n - 1];
      assert gs[1..][n - 1] == gs[n];
    }
  }

  /**
   * Every frame of the list is accounted for exactly once by what filterR
   * pushes: alone, as the head of a fold, or folded into a head.
   */
  lemma ExactlyOnce(t: seq<Event>, list: seq<SortedPattern>, steps: nat, bound: nat)
    requires AllStaged(t, list, steps, bound)
    ensures multiset(AllMembers(FilterR(t, list, steps, bound))) == multiset(FramesOf(list))
    decreases bound - steps, 2, 0
  {
    if |list| == 1 {
      assert FramesOf(list) == FramesOf([]) + [list[0].patternFrame];
      assert AllMembers(FilterR(t, list, steps, bound)) == AllMembers([]) + Members(Alone(list[0]));
    } else {
      var done := Completed(list);
      var children := Children(t, list, steps, bound);
      AllMembersConcat(Head(list), children);
      HeadMembers(list);
      ChildrenMembers(t, list, steps, bound);
      assert forall i :: 0 <= i < |list| ==> Ready(t, list[i]) by {
        assert forall i :: 0 <= i < |list| ==> Staged(t, list[i], steps, bound);
      }
      SplitFrames(t, list);
      Join(AllMembers(Head(list)), AllMembers(children), FramesOf(done), FramesOf(Values(Keyed(t, list))), FramesOf(list));
    }
  }

  /** The fold accounts for exactly the completed patterns. */
  lemma HeadMembers(list: seq<SortedPattern>)
    ensures AllMembers(Head(list)) == FramesOf(Completed(list))
  {
    var done := Completed(list);
    if |done| > 0 {
      var e := Folded(done[0], done[1..]);
      assert Head(list) == [e];
      assert [e][..0] == [];
      assert AllMembers([e]) == AllMembers([]) + Members(e);
      assert done == [done[0]] + done[1..];
      FramesOfConcat([done[0]], done[1..]);
      FramesOfSingle(done[0]);
    } else {
      assert Head(list) == [];
    }
  }

  lemma ChildrenMembers(t: seq<Event>, list: seq<SortedPattern>, steps: nat, bound: nat)
    requires AllStaged(t, list, steps, bound)
    ensures multiset(AllMembers(Children(t, list, steps, bound))) == multiset(FramesOf(Values(Keyed(t, list))))
    decreases bound - steps, 1, 0
  {
    ChildrenReady(t, list, steps, bound);
    var pairs := Keyed(t, list);
    var gs := GroupByKey(pairs);
    assert multiset(AllMembers(Children(t, list, steps, bound))) == multiset(FramesOf(Flatten(gs))) by {
      GroupsMembers(t, gs, |gs|, steps, bound);
      assert gs[..|gs|] == gs;
    }
    assert multiset(FramesOf(Flatten(gs))) == multiset(FramesOf(Values(pairs))) by {
      GroupByKeySpec(pairs);
      FramesOfPerm(Flatten(gs), Values(pairs));
    }
  }

  lemma {:induction false} GroupsMembers(t: seq<Event>, gs: seq<(Event, seq<SortedPattern>)>, n: nat, steps: nat, bound: nat)
    requires n <= |gs| && (n > 0 ==> steps < bound)
    requires forall i :: 0 <= i < |gs| ==> AllStaged(t, gs[i].1, steps + 1, bound)
    ensures multiset(AllMembers(FilterGroups(t, gs, n, steps, bound))) == multiset(FramesOf(Flatten(gs[..n])))
    decreases bound - steps, 0, n
  {
    if n == 0 {
      assert gs[..0] == [];
    } else {
      GroupsMembers(t, gs, n - 1, steps, bound);
      ExactlyOnce(t, gs[n - 1].1, steps + 1, bound);
      AllMembersConcat(FilterGroups(t, gs, n - 1, steps, bound), FilterR(t, gs[n - 1].1, steps + 1, bound));
      FlattenSnoc(gs, n - 1);
      FramesOfConcat(Flatten(gs[..n - 1]), gs[n - 1].1);
    }
  }

  lemma {:induction false} PatternsFrames(t: seq<Event>, fs: seq<Frame>, n: nat)
    requires n <= |fs| && forall i :: 0 <= i < |fs| ==> InTrace(t, fs[i]) && 1 <= Length(fs[i])
    ensures FramesOf(Patterns(t, fs, n)) == fs[..n]
  {
    if n > 0 {
      PatternsFrames(t, fs, n - 1);
      var ps := Patterns(t, fs, n);
      assert ps[..n - 1] == Patterns(t, fs, n - 1);
      assert ps[n - 1].patternFrame == fs[n - 1];
      assert fs[..n] == fs[..n - 1] + [fs[n - 1]];
    }
  }

  /**
   * filter accounts for every input frame exactly once, so it never pushes
   * more frames than it was given.
   */
  lemma FilterAllOnce(t: seq<Event>, fs: seq<Frame>)
    requires forall i :: 0 <= i < |fs| ==> InTrace(t, fs[i]) && 1 <= Length(fs[i])
    ensures multiset(AllMembers(FilterAll(t, fs))) == multiset(fs)
    ensures |FilterAll(t, fs)| <= |fs|
  {
    PatternsStaged(t, fs, |fs|);
    ExactlyOnce(t, Patterns(t, fs, |fs|), 0, MaxLength(fs));
    PatternsFrames(t, fs, |fs|);
    assert fs[..|fs|] == fs;
    assert |AllMembers(FilterAll(t, fs))| == |multiset(fs)| == |fs|;
  }

  // ---------------------------------------------------------------------
  // Folds
  // ---------------------------------------------------------------------

  /** filterR on a single pattern pushes that pattern's frame, untouched, and nothing else. */
  lemma LoneEmitted(t: seq<Event>, p: SortedPattern, steps: nat, bound: nat)
    requires AllStaged(t, [p], steps, bound)
    ensures EmittedFrames(FilterR(t, [p], steps, bound)) == [p.patternFrame]
  {
    var es := FilterR(t, [p], steps, bound);
    assert es == [Alone(p)];
    assert es[..0] == [];
  }

  /** A fold joins patterns of one length, all back at their rotation point. */
  predicate Aligned(e: Emission)
  {
    e.Folded? ==>
      e.head.index == e.head.orderedStart &&
      forall i :: 0 <= i < |e.others| ==> e.others[i].length == e.head.length && e.others[i].index == e.others[i].orderedStart
  }

  lemma {:induction false} CompletedHome(list: seq<SortedPattern>)
    ensures forall q :: q in Completed(list) ==> q.index == q.orderedStart
  {
    if |list| > 0 {
      CompletedHome(list[..|list| - 1]);
    }
  }

  /** Every fold filterR pushes joins frames of one length that came back to their rotation point in the same step. */
  lemma FoldsAligned(t: seq<Event>, list: seq<SortedPattern>, steps: nat, bound: nat)
    requires AllStaged(t, list, steps, bound)
    ensures forall i :: 0 <= i < |FilterR(t, list, steps, bound)| ==> Aligned(FilterR(t, list, steps, bound)[i])
    decreases bound - steps, 2, 0
  {
    if |list| != 1 {
      var done := Completed(list);
      KeyedStaged(t, list, steps, bound);
      CompletedHome(list);
      if |done| > 0 {
        assert done[0] in done;
        assert forall i :: 0 <= i < |done[1..]| ==> done[1..][i] in done;
      }
      ChildrenAligned(t, list, steps, bound);
    }
  }

  lemma ChildrenAligned(t: seq<Event>, list: seq<SortedPattern>, steps: nat, bound: nat)
    requires AllStaged(t, list, steps, bound)
    ensures forall i :: 0 <= i < |Children(t, list, steps, bound)| ==> Aligned(Children(t, list, steps, bound)[i])
    decreases bound - steps, 1, 0
  {
    ChildrenReady(t, list, steps, bound);
    var gs := GroupByKey(Keyed(t, list));
    GroupsAligned(t, gs, |gs|, steps, bound);
  }

  lemma {:induction false} GroupsAligned(t: seq<Event>, gs: seq<(Event, seq<SortedPattern>)>, n: nat, steps: nat, bound: nat)
    requires n <= |gs| && (n > 0 ==> steps < bound)
    requires forall i :: 0 <= i < |gs| ==> AllStaged(t, gs[i].1, steps + 1, bound)
    ensures forall i :: 0 <= i < |FilterGroups(t, gs, n, steps, bound)| ==> Aligned(FilterGroups(t, gs, n, steps, bound)[i])
    decreases bound - steps, 0, n
  {
    if n > 0 {
      GroupsAligned(t, gs, n - 1, steps, bound);
      FoldsAligned(t, gs[n - 1].1, steps + 1, bound);
    }
  }

  /**
   * A folded frame's intervals are the union of its members' intervals,
   * again separated, and its span is their total length.
   */
  lemma {:induction false} MergeFromUnion(iv: seq<Interval>, others: seq<SortedPattern>, n: nat)
    requires n <= |others| && Separated(iv)
    requires forall i :: 0 <= i < |others| ==> Separated(others[i].patternFrame.intervals)
    ensures Separated(MergeFrom(iv, others, n))
    ensures forall p :: Covers(MergeFrom(iv, others, n), p) <==>
      Covers(iv, p) || exists i :: 0 <= i < n && Covers(others[i].patternFrame.intervals, p)
  {
    if n > 0 {
      MergeFromUnion(iv, others, n - 1);
      MergeUnion(MergeFrom(iv, others, n - 1), others[n - 1].patternFrame.intervals);
    }
  }

  lemma FoldedUnion(h: SortedPattern, others: seq<SortedPattern>)
    requires Separated(h.patternFrame.intervals)
    requires forall i :: 0 <= i < |others| ==> Separated(others[i].patternFrame.intervals)
    ensures Separated(Emitted(Folded(h, others)).intervals)
    ensures forall p :: Covers(Emitted(Folded(h, others)).intervals, p) <==>
      Covers(h.patternFrame.intervals, p) || exists i :: 0 <= i < |others| && Covers(others[i].patternFrame.intervals, p)
    ensures Emitted(Folded(h, others)).span == Span(Emitted(Folded(h, others)).intervals)
    ensures Emitted(Folded(h, others)).start == h.patternFrame.start && Emitted(Folded(h, others)).end == h.patternFrame.end
  {
    MergeFromUnion(h.patternFrame.intervals, others, |others|);
  }

  // ---------------------------------------------------------------------
  // Folded frames read one body (js/Filters.js:72-110)
  // ---------------------------------------------------------------------

  /** Advancing an incremented pattern k times is advancing the pattern k + 1 times. Twin of SubPattern.AdvanceShift, for the other reading type. */
  lemma {:induction false} AdvanceShift(p: SortedPattern, k: nat)
    ensures Advance(Increment(p), k) == Advance(p, k + 1)
  {
    if k > 0 {
      AdvanceShift(p, k - 1);
    }
  }

  /** The body position after k increments: one wrap back to 1 past the last position. */
  function Shifted(p: SortedPattern, k: int): int
  {
    if p.index + k <= p.length then p.index + k else p.index + k - p.length
  }

  /** k increments, for k up to the length, move the index k positions on, wrapping once. */
  lemma {:induction false} AdvanceIndex(p: SortedPattern, k: nat)
    requires Placed(p) && k <= p.length
    ensures Advance(p, k).index == Shifted(p, k)
  {
    if k > 0 {
      AdvanceIndex(p, k - 1);
    }
  }

  /** A pattern at its rotation point is back where it began after length increments. */
  lemma AdvanceHome(p: SortedPattern)
    requires Placed(p) && p.index == p.orderedStart
    ensures Advance(p, p.length) == p
  {
    IncrementCycle(p, p.length);
  }

  /** Every completed pattern is the increment of a pattern of the list that came back to its rotation point. Twin of SubPattern.CompletedOrigin, for the other reading type. */
  lemma {:induction false} CompletedOrigin(list: seq<SortedPattern>)
    ensures forall q :: q in Completed(list) ==>
      exists p :: p in list && q == Increment(p) && Increment(p).index == p.orderedStart
  {
    if |list| > 0 {
      var init := list[..|list| - 1];
      CompletedOrigin(init);
      assert forall p :: p in init ==> p in list;
    }
  }

  /** Every keyed pattern is the increment of a pattern of the list that did not complete, under the line it reaches. Twin of SubPattern.KeyedOrigin, for the other reading type. */
  lemma {:induction false} KeyedOrigin(t: seq<Event>, list: seq<SortedPattern>)
    requires forall i :: 0 <= i < |list| ==> Ready(t, list[i])
    ensures forall x :: x in Keyed(t, list) ==>
      && Ready(t, x.1) && x.0 == Key(t, x.1)
      && exists p :: p in list && x.1 == Increment(p) && Increment(p).index != p.orderedStart
  {
    if |list| > 0 {
      var init := list[..|list| - 1];
      var p := list[|list| - 1];
      KeyedOrigin(t, init);
      IncrementRemaining(p);
      assert forall r :: r in init ==> r in list;
    }
  }

  /** A pattern in a group of the partition is the increment of a pattern of the list that did not complete, and reaches the group's line. Twin of SubPattern.GroupMemberOrigin, for the other reading type. */
  lemma GroupMemberOrigin(t: seq<Event>, list: seq<SortedPattern>, i: nat, r: SortedPattern)
    requires forall j :: 0 <= j < |list| ==> Ready(t, list[j])
    requires i < |GroupByKey(Keyed(t, list))| && r in GroupByKey(Keyed(t, list))[i].1
    ensures Ready(t, r) && Key(t, r) == GroupByKey(Keyed(t, list))[i].0
    ensures exists p :: p in list && r == Increment(p) && Increment(p).index != p.orderedStart
  {
    var pairs := Keyed(t, list);
    var gs := GroupByKey(pairs);
    GroupByKeySpec(pairs);
    assert gs[i].1 == ValuesOf(pairs, gs[i].0);
    ValuesOfMember(pairs, gs[i].0, r);
    KeyedOrigin(t, list);
    assert (gs[i].0, r) in pairs;
  }

  /** At each of the next n increments c and q reach the same trace line: they share the group of every partition on the way. */
  ghost predicate Agree(t: seq<Event>, c: SortedPattern, q: SortedPattern, n: nat)
  {
    forall j: nat :: 1 <= j <= n ==>
      Ready(t, Advance(c, j)) && Ready(t, Advance(q, j)) && Key(t, Advance(c, j)) == Key(t, Advance(q, j))
  }

  /** Patterns whose increments reach the same line and then agree for n more increments agree for n + 1. Twin of SubPatternFacts.AgreeShift, for the other reading type. */
  lemma AgreeShift(t: seq<Event>, c: SortedPattern, q: SortedPattern, n: nat)
    requires Ready(t, Increment(c)) && Ready(t, Increment(q))
    requires Key(t, Increment(c)) == Key(t, Increment(q))
    requires Agree(t, Increment(c), Increment(q), n)
    ensures Agree(t, c, q, n + 1)
  {
    forall j: nat | 1 <= j <= n + 1
      ensures Ready(t, Advance(c, j)) && Ready(t, Advance(q, j)) && Key(t, Advance(c, j)) == Key(t, Advance(q, j))
    {
      AdvanceShift(c, j - 1);
      AdvanceShift(q, j - 1);
      if j == 1 {
        assert Advance(c, 0) == c && Advance(q, 0) == q;
      }
    }
  }

  /**
   * h and o are what c and q of the list become back at their rotation
   * points, with the same number of steps to go, reading the same line at
   * every increment before that.
   */
  ghost predicate ReachedTogether(t: seq<Event>, list: seq<SortedPattern>, h: SortedPattern, o: SortedPattern)
  {
    exists c, q :: c in list && q in list && Ready(t, c) && Ready(t, q) && Remaining(c) == Remaining(q)
      && h == Advance(c, Remaining(c)) && o == Advance(q, Remaining(q)) && Agree(t, c, q, Remaining(c) - 1)
  }

  /** Every frame of a fold was reached together with its head. */
  ghost predicate FoldTogether(t: seq<Event>, list: seq<SortedPattern>, e: Emission)
  {
    e.Folded? ==> forall i :: 0 <= i < |e.others| ==> ReachedTogether(t, list, e.head, e.others[i])
  }

  /** A pattern of the list that completes in this call is one increment from home. */
  lemma CompletedOne(t: seq<Event>, list: seq<SortedPattern>, steps: nat, bound: nat, c: SortedPattern)
    requires AllStaged(t, list, steps, bound)
    requires c in list && Increment(c).index == c.orderedStart
    ensures Ready(t, c) && Remaining(c) == 1 && Advance(c, Remaining(c)) == Increment(c)
  {
    var jc :| 0 <= jc < |list| && list[jc] == c;
    assert Staged(t, list[jc], steps, bound);
    IncrementRemaining(c);
    assert Advance(c, 1) == Increment(Advance(c, 0));
  }

  /** Two patterns completing in one call were reached together from the list. */
  lemma CompletedTogether(t: seq<Event>, list: seq<SortedPattern>, steps: nat, bound: nat, h: SortedPattern, o: SortedPattern)
    requires AllStaged(t, list, steps, bound)
    requires h in Completed(list) && o in Completed(list)
    ensures ReachedTogether(t, list, h, o)
  {
    CompletedOrigin(list);
    var c :| c in list && h == Increment(c) && Increment(c).index == c.orderedStart;
    var q :| q in list && o == Increment(q) && Increment(q).index == q.orderedStart;
    CompletedOne(t, list, steps, bound, c);
    CompletedOne(t, list, steps, bound, q);
    assert Agree(t, c, q, Remaining(c) - 1);
  }

  /** The patterns completing in one call were reached together from the list. */
  lemma HeadTogether(t: seq<Event>, list: seq<SortedPattern>, steps: nat, bound: nat)
    requires AllStaged(t, list, steps, bound)
    ensures forall k :: 0 <= k < |Head(list)| ==> FoldTogether(t, list, Head(list)[k])
  {
    var done := Completed(list);
    if |done| > 0 {
      forall i | 0 <= i < |done[1..]| ensures ReachedTogether(t, list, done[0], done[1..][i]) {
        assert done[0] in done && done[1..][i] in done;
        CompletedTogether(t, list, steps, bound, done[0], done[1..][i]);
      }
      assert Head(list) == [Folded(done[0], done[1..])];
    }
  }

  /** A pattern and its increment, one step further from home, end their way home at the same place. */
  lemma HomeShift(p: SortedPattern)
    requires Placed(p) && Placed(Increment(p)) && Remaining(p) == Remaining(Increment(p)) + 1
    ensures Advance(p, Remaining(p)) == Advance(Increment(p), Remaining(Increment(p)))
  {
    AdvanceShift(p, Remaining(Increment(p)));
  }

  /** A pattern whose increment is not yet home goes home one increment later than that increment does, at the same place. */
  lemma LiftOne(p: SortedPattern)
    requires Placed(p) && Increment(p).index != p.orderedStart
    ensures Placed(Increment(p)) && Remaining(p) == Remaining(Increment(p)) + 1
    ensures Advance(p, Remaining(p)) == Advance(Increment(p), Remaining(Increment(p)))
  {
    assert Placed(Increment(p)) && Remaining(p) == Remaining(Increment(p)) + 1 by {
      IncrementRemaining(p);
    }
    HomeShift(p);
  }

  /** Agreement of two patterns' increments, and their way home, carry back to the patterns themselves. */
  lemma LiftPair(t: seq<Event>, c: SortedPattern, q: SortedPattern)
    requires Placed(c) && Placed(q)
    requires Increment(c).index != c.orderedStart && Increment(q).index != q.orderedStart
    requires Ready(t, Increment(c)) && Ready(t, Increment(q)) && Key(t, Increment(c)) == Key(t, Increment(q))
    requires Remaining(Increment(c)) == Remaining(Increment(q))
    requires Agree(t, Increment(c), Increment(q), Remaining(Increment(c)) - 1)
    ensures Remaining(c) == Remaining(q)
    ensures Advance(c, Remaining(c)) == Advance(Increment(c), Remaining(Increment(c)))
    ensures Advance(q, Remaining(q)) == Advance(Increment(q), Remaining(Increment(q)))
    ensures Agree(t, c, q, Remaining(c) - 1)
  {
    LiftOne(c);
    LiftOne(q);
    AgreeShift(t, c, q, Remaining(Increment(c)) - 1);
  }

  /** Patterns reached together inside a group of the partition were reached together from the list, one increment earlier. */
  lemma GroupReached(t: seq<Event>, list: seq<SortedPattern>, steps: nat, bound: nat, i: nat, h: SortedPattern, o: SortedPattern)
    requires AllStaged(t, list, steps, bound)
    requires i < |GroupByKey(Keyed(t, list))|
    requires ReachedTogether(t, GroupByKey(Keyed(t, list))[i].1, h, o)
    ensures ReachedTogether(t, list, h, o)
  {
    var g := GroupByKey(Keyed(t, list))[i];
    var c', q' :| c' in g.1 && q' in g.1 && Ready(t, c') && Ready(t, q') && Remaining(c') == Remaining(q')
      && h == Advance(c', Remaining(c')) && o == Advance(q', Remaining(q')) && Agree(t, c', q', Remaining(c') - 1);
    assert forall j :: 0 <= j < |list| ==> Ready(t, list[j]) by {
      assert forall j :: 0 <= j < |list| ==> Staged(t, list[j], steps, bound);
    }
    GroupMemberOrigin(t, list, i, c');
    GroupMemberOrigin(t, list, i, q');
    var c :| c in list && c' == Increment(c) && Increment(c).index != c.orderedStart;
    var q :| q in list && q' == Increment(q) && Increment(q).index != q.orderedStart;
    assert Ready(t, c) && Ready(t, q) by {
      var jc :| 0 <= jc < |list| && list[jc] == c;
      var jq :| 0 <= jq < |list| && list[jq] == q;
    }
    LiftPair(t, c, q);
    assert c in list && q in list && Ready(t, c) && Ready(t, q) && Remaining(c) == Remaining(q)
      && h == Advance(c, Remaining(c)) && o == Advance(q, Remaining(q)) && Agree(t, c, q, Remaining(c) - 1);
  }

  /** A fold pushed by the call on a group joins patterns reached together from the list the group came from. */
  lemma GroupFold(t: seq<Event>, list: seq<SortedPattern>, steps: nat, bound: nat, i: nat, e: Emission)
    requires AllStaged(t, list, steps, bound)
    requires i < |GroupByKey(Keyed(t, list))|
    requires FoldTogether(t, GroupByKey(Keyed(t, list))[i].1, e)
    ensures FoldTogether(t, list, e)
  {
    if e.Folded? {
      forall m | 0 <= m < |e.others| ensures ReachedTogether(t, list, e.head, e.others[m]) {
        GroupReached(t, list, steps, bound, i, e.head, e.others[m]);
      }
    }
  }

  /** Every fold filterR pushes, in any of its calls, joins patterns reached together from its list. */
  lemma FoldsTogether(t: seq<Event>, list: seq<SortedPattern>, steps: nat, bound: nat)
    requires AllStaged(t, list, steps, bound)
    ensures forall k :: 0 <= k < |FilterR(t, list, steps, bound)| ==> FoldTogether(t, list, FilterR(t, list, steps, bound)[k])
    decreases bound - steps, 2, 0
  {
    if |list| != 1 {
      HeadTogether(t, list, steps, bound);
      ChildrenTogether(t, list, steps, bound);
    }
  }

  /** Every fold pushed by the calls on the partition joins patterns reached together from the list. */
  lemma ChildrenTogether(t: seq<Event>, list: seq<SortedPattern>, steps: nat, bound: nat)
    requires AllStaged(t, list, steps, bound)
    ensures forall k :: 0 <= k < |Children(t, list, steps, bound)| ==> FoldTogether(t, list, Children(t, list, steps, bound)[k])
    decreases bound - steps, 1, 0
  {
    ChildrenReady(t, list, steps, bound);
    var gs := GroupByKey(Keyed(t, list));
    GroupsTogether(t, list, |gs|, steps, bound);
  }

  /** The same for the calls on the first n groups. */
  lemma {:induction false} GroupsTogether(t: seq<Event>, list: seq<SortedPattern>, n: nat, steps: nat, bound: nat)
    requires AllStaged(t, list, steps, bound)
    requires n <= |GroupByKey(Keyed(t, list))| && (n > 0 ==> steps < bound)
    requires forall i :: 0 <= i < |GroupByKey(Keyed(t, list))| ==> AllStaged(t, GroupByKey(Keyed(t, list))[i].1, steps + 1, bound)
    ensures forall k :: 0 <= k < |FilterGroups(t, GroupByKey(Keyed(t, list)), n, steps, bound)| ==>
      FoldTogether(t, list, FilterGroups(t, GroupByKey(Keyed(t, list)), n, steps, bound)[k])
    decreases bound - steps, 0, n
  {
    var gs := GroupByKey(Keyed(t, list));
    if n > 0 {
      GroupsTogether(t, list, n - 1, steps, bound);
      FoldsTogether(t, gs[n - 1].1, steps + 1, bound);
      var a := FilterGroups(t, gs, n - 1, steps, bound);
      var b := FilterR(t, gs[n - 1].1, steps + 1, bound);
      assert FilterGroups(t, gs, n, steps, bound) == a + b;
      forall k | 0 <= k < |b| ensures FoldTogether(t, list, b[k]) {
        GroupFold(t, list, steps, bound, n - 1, b[k]);
      }
    }
  }

  /**
   * h and o are patterns of one length at their rotation points that read
   * the same trace line at each of the first length - 1 positions from
   * there: rotations of one body, up to the line just before the rotation
   * point, which the code never compares.
   */
  predicate OneBody(t: seq<Event>, h: SortedPattern, o: SortedPattern)
  {
    && Ready(t, h) && Ready(t, o) && h.length == o.length
    && h.index == h.orderedStart && o.index == o.orderedStart
    && forall j :: 1 <= j < h.length ==> t[h.patternFrame.start + Shifted(h, j)] == t[o.patternFrame.start + Shifted(o, j)]
  }

  /** Patterns at their rotation points that agree for length - 1 increments read one body. */
  lemma AgreeOneBody(t: seq<Event>, c: SortedPattern, q: SortedPattern)
    requires Ready(t, c) && Ready(t, q) && c.length == q.length
    requires c.index == c.orderedStart && q.index == q.orderedStart
    requires Agree(t, c, q, c.length - 1)
    ensures OneBody(t, c, q)
  {
    forall j | 1 <= j < c.length
      ensures t[c.patternFrame.start + Shifted(c, j)] == t[q.patternFrame.start + Shifted(q, j)]
    {
      AdvanceIndex(c, j);
      AdvanceIndex(q, j);
      assert Key(t, Advance(c, j)) == Key(t, Advance(q, j));
    }
  }

  /** h and o are patterns of the list that read one body. */
  predicate RotationOf(t: seq<Event>, list: seq<SortedPattern>, h: SortedPattern, o: SortedPattern)
  {
    h in list && o in list && OneBody(t, h, o)
  }

  /** Two patterns reached together from the top-level list, where every pattern is at its rotation point, read one body. */
  lemma ReachedOneBody(t: seq<Event>, list: seq<SortedPattern>, bound: nat, h: SortedPattern, o: SortedPattern)
    requires AllStaged(t, list, 0, bound) && ReachedTogether(t, list, h, o)
    ensures RotationOf(t, list, h, o)
  {
    var c, q :| c in list && q in list && Ready(t, c) && Ready(t, q) && Remaining(c) == Remaining(q)
      && h == Advance(c, Remaining(c)) && o == Advance(q, Remaining(q)) && Agree(t, c, q, Remaining(c) - 1);
    assert Remaining(c) == c.length && Remaining(q) == q.length by {
      var jc :| 0 <= jc < |list| && list[jc] == c;
      var jq :| 0 <= jq < |list| && list[jq] == q;
      assert Staged(t, list[jc], 0, bound) && Staged(t, list[jq], 0, bound);
    }
    assert c.index == c.orderedStart && q.index == q.orderedStart;
    AdvanceHome(c);
    AdvanceHome(q);
    AgreeOneBody(t, c, q);
  }

  /** Over a list of patterns at their rotation points, filterR folds only patterns of the list that read one body. */
  lemma FilteredRotations(t: seq<Event>, list: seq<SortedPattern>, bound: nat)
    requires AllStaged(t, list, 0, bound)
    ensures forall e, i :: e in FilterR(t, list, 0, bound) && e.Folded? && 0 <= i < |e.others| ==>
      RotationOf(t, list, e.head, e.others[i])
  {
    var es := FilterR(t, list, 0, bound);
    FoldsTogether(t, list, 0, bound);
    forall e, i | e in es && e.Folded? && 0 <= i < |e.others|
      ensures RotationOf(t, list, e.head, e.others[i])
    {
      var k :| 0 <= k < |es| && es[k] == e;
      assert FoldTogether(t, list, es[k]);
      ReachedOneBody(t, list, bound, e.head, e.others[i]);
    }
  }

  /**
   * filter folds a frame into another only when both read one body from
   * their rotation points: the grouping by trace[start + index] sends them
   * through the same group at every increment.
   */
  lemma FoldsRotations(t: seq<Event>, fs: seq<Frame>)
    requires forall i :: 0 <= i < |fs| ==> InTrace(t, fs[i]) && 1 <= Length(fs[i])
    ensures forall e, i :: e in FilterAll(t, fs) && e.Folded? && 0 <= i < |e.others| ==>
      RotationOf(t, Patterns(t, fs, |fs|), e.head, e.others[i])
  {
    var list := Patterns(t, fs, |fs|);
    PatternsStaged(t, fs, |fs|);
    FilteredRotations(t, list, MaxLength(fs));
    assert FilterAll(t, fs) == FilterR(t, list, 0, MaxLength(fs));
  }
}
