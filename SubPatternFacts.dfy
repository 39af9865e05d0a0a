/**
 * What the sub-pattern filter promises: a frame loses its flag exactly when a
 * completed reading of it meets, in the same list, a reading of a different
 * frame whose intervals contain its own; so every frame it drops is
 * contained in another frame whose reading reached the same event as the
 * dropped frame's at each step of its rotation, and no flag is ever set.
 */
module SubPatternFacts {
  import opened Intervals
  import opened Events
  import opened Grouping
  import opened Frames
  import opened SubPattern

  /** Frame x's intervals lie inside those of a different frame. */
  ghost predicate Subsumed(fs: seq<Frame>, x: nat)
  {
    x < |fs| && exists j :: 0 <= j < |fs| && j != x && Contained(fs[x].intervals, fs[j].intervals)
  }

  lemma {:induction false} HitsMeaning(fs: seq<Frame>, c: RotatedPattern, list: seq<RotatedPattern>, m: nat)
    requires c.frame < |fs| && m <= |list| && Within(fs, list)
    ensures Hits(fs, c, list, m) <==>
      exists j :: 0 <= j < m && list[j].frame != c.frame && Contained(fs[c.frame].intervals, fs[list[j].frame].intervals)
  {
    if m > 0 {
      HitsMeaning(fs, c, list, m - 1);
    }
  }

  /** The first n completed readings clear frame x iff one of them reads x and is hit. Twin of PartialPatternFacts.ClearedByMeaning, for the other reading type. */
  lemma {:induction false} ClearedByMeaning(fs: seq<Frame>, completed: seq<RotatedPattern>, list: seq<RotatedPattern>, n: nat, x: nat)
    requires n <= |completed| && Within(fs, completed) && Within(fs, list)
    ensures x in ClearedBy(fs, completed, list, n) <==>
      exists i :: 0 <= i < n && completed[i].frame == x && Hits(fs, completed[i], list, |list|)
  {
    if n > 0 {
      ClearedByMeaning(fs, completed, list, n - 1, x);
    }
  }

  /** The readings named in Cleared's requires all lie in fs. */
  lemma ClearedWithin(t: seq<Event>, fs: seq<Frame>, list: seq<RotatedPattern>, steps: nat, bound: nat)
    requires AllStaged(t, fs, list, steps, bound)
    ensures Within(fs, Completed(list)) && Within(fs, list)
    ensures Cleared(t, fs, list, steps, bound) == ClearedBy(fs, Completed(list), list, |Completed(list)|)
  {
    ChildrenReady(t, fs, list, steps, bound);
    var done := Completed(list);
    assert Within(fs, done) by {
      assert forall i :: 0 <= i < |done| ==> done[i] in done;
    }
    assert Within(fs, list) by {
      assert forall i :: 0 <= i < |list| ==> Staged(t, fs, list[i], steps, bound);
    }
  }

  /** A frame's intervals lie inside those of a different frame read in the list. */
  predicate HitIn(fs: seq<Frame>, list: seq<RotatedPattern>, x: nat)
  {
    exists r :: r in list && r.frame != x && r.frame < |fs| && x < |fs| && Contained(fs[x].intervals, fs[r.frame].intervals)
  }

  /**
   * One call of filterR clears frame x iff a reading of x completes in this
   * call and some reading of the list, of a different frame, has intervals
   * containing x's.
   */
  lemma ClearedMeaning(t: seq<Event>, fs: seq<Frame>, list: seq<RotatedPattern>, steps: nat, bound: nat, x: nat)
    requires AllStaged(t, fs, list, steps, bound)
    ensures x in Cleared(t, fs, list, steps, bound) <==> (exists c :: c in Completed(list) && c.frame == x) && HitIn(fs, list, x)
  {
    ClearedWithin(t, fs, list, steps, bound);
    ClearedByMeaning(fs, Completed(list), list, |Completed(list)|, x);
    if x in Cleared(t, fs, list, steps, bound) {
      ClearedOnlyIf(fs, Completed(list), list, x);
    }
    if (exists c :: c in Completed(list) && c.frame == x) && HitIn(fs, list, x) {
      ClearedIf(fs, Completed(list), list, x);
    }
  }

  lemma ClearedOnlyIf(fs: seq<Frame>, done: seq<RotatedPattern>, list: seq<RotatedPattern>, x: nat)
    requires Within(fs, done) && Within(fs, list)
    requires exists i :: 0 <= i < |done| && done[i].frame == x && Hits(fs, done[i], list, |list|)
    ensures (exists c :: c in done && c.frame == x) && HitIn(fs, list, x)
  {
    var i :| 0 <= i < |done| && done[i].frame == x && Hits(fs, done[i], list, |list|);
    HitsMeaning(fs, done[i], list, |list|);
    var j :| 0 <= j < |list| && list[j].frame != x && Contained(fs[x].intervals, fs[list[j].frame].intervals);
    assert list[j] in list;
    assert done[i] in done;
  }

  lemma ClearedIf(fs: seq<Frame>, done: seq<RotatedPattern>, list: seq<RotatedPattern>, x: nat)
    requires Within(fs, done) && Within(fs, list)
    requires (exists c :: c in done && c.frame == x) && HitIn(fs, list, x)
    ensures exists i :: 0 <= i < |done| && done[i].frame == x && Hits(fs, done[i], list, |list|)
  {
    var c :| c in done && c.frame == x;
    var r :| r in list && r.frame != x && r.frame < |fs| && x < |fs| && Contained(fs[x].intervals, fs[r.frame].intervals);
    var i :| 0 <= i < |done| && done[i] == c;
    var j :| 0 <= j < |list| && list[j] == r;
    HitsMeaning(fs, c, list, |list|);
  }

  /** A reading completes in the call that makes its length-th increment. */
  lemma {:induction false} CompletedAtLength(t: seq<Event>, fs: seq<Frame>, list: seq<RotatedPattern>, steps: nat, bound: nat)
    requires AllStaged(t, fs, list, steps, bound)
    ensures forall q :: q in Completed(list) ==> steps + 1 == q.length && q.index == q.rotatedStart
  {
    if |list| > 0 {
      CompletedAtLength(t, fs, list[..|list| - 1], steps, bound);
      IncrementRemaining(list[|list| - 1]);
    }
  }

  /** At each of the next n increments c and q reach the same event: they share the group of every partition on the way. */
  ghost predicate Agree(t: seq<Event>, fs: seq<Frame>, c: RotatedPattern, q: RotatedPattern, n: nat)
  {
    forall j: nat :: 1 <= j <= n ==>
      Ready(t, fs, Advance(c, j)) && Ready(t, fs, Advance(q, j)) && Key(t, fs, Advance(c, j)) == Key(t, fs, Advance(q, j))
  }

  /**
   * Frame x is read by c in the list, and a reading q in the list, of a
   * different frame whose intervals contain x's, reaches the same event as
   * c at each increment before c comes back to its starting point.
   */
  ghost predicate MetIn(t: seq<Event>, fs: seq<Frame>, list: seq<RotatedPattern>, x: nat)
  {
    x < |fs| &&
      exists c, q :: (c in list && q in list && c.frame == x && q.frame != x && q.frame < |fs| && Ready(t, fs, c) &&
        Contained(fs[x].intervals, fs[q.frame].intervals) && Agree(t, fs, c, q, Remaining(c) - 1))
  }

  lemma MetSubsumed(t: seq<Event>, fs: seq<Frame>, list: seq<RotatedPattern>, x: nat)
    requires MetIn(t, fs, list, x)
    ensures Subsumed(fs, x)
  {
    var c, q :| c in list && q in list && c.frame == x && q.frame != x && q.frame < |fs| && Ready(t, fs, c) &&
      Contained(fs[x].intervals, fs[q.frame].intervals) && Agree(t, fs, c, q, Remaining(c) - 1);
  }

  lemma ClearedSound(t: seq<Event>, fs: seq<Frame>, list: seq<RotatedPattern>, steps: nat, bound: nat)
    requires AllStaged(t, fs, list, steps, bound)
    ensures forall x :: x in Cleared(t, fs, list, steps, bound) ==> MetIn(t, fs, list, x)
  {
    CompletedOrigin(list);
    forall x | x in Cleared(t, fs, list, steps, bound) ensures MetIn(t, fs, list, x) {
      ClearedMeaning(t, fs, list, steps, bound, x);
      var d :| d in Completed(list) && d.frame == x;
      var c :| c in list && d == Increment(c) && Increment(c).index == c.rotatedStart;
      var r :| r in list && r.frame != x && r.frame < |fs| && x < |fs| && Contained(fs[x].intervals, fs[r.frame].intervals);
      var i :| 0 <= i < |list| && list[i] == c;
      assert Staged(t, fs, list[i], steps, bound);
      IncrementRemaining(c);
      assert Agree(t, fs, c, r, Remaining(c) - 1);
    }
  }

  /** Every frame filterR clears, in any of its calls, is met in the list by a reading of a frame containing it. */
  lemma InvalidatedSound(t: seq<Event>, fs: seq<Frame>, list: seq<RotatedPattern>, steps: nat, bound: nat)
    requires AllStaged(t, fs, list, steps, bound)
    ensures forall x :: x in Invalidated(t, fs, list, steps, bound) ==> MetIn(t, fs, list, x)
    decreases bound - steps, 2, 0
  {
    ClearedSound(t, fs, list, steps, bound);
    ChildrenSound(t, fs, list, steps, bound);
  }

  lemma ChildrenSound(t: seq<Event>, fs: seq<Frame>, list: seq<RotatedPattern>, steps: nat, bound: nat)
    requires AllStaged(t, fs, list, steps, bound)
    ensures forall x :: x in Children(t, fs, list, steps, bound) ==> MetIn(t, fs, list, x)
    decreases bound - steps, 1, 0
  {
    ChildrenReady(t, fs, list, steps, bound);
    var gs := GroupByKey(Keyed(t, fs, list));
    GroupsSound(t, fs, list, |gs|, steps, bound);
  }

  lemma {:induction false} GroupsSound(t: seq<Event>, fs: seq<Frame>, list: seq<RotatedPattern>, n: nat, steps: nat, bound: nat)
    requires AllStaged(t, fs, list, steps, bound)
    requires n <= |GroupByKey(Keyed(t, fs, list))| && (n > 0 ==> steps < bound)
    requires forall i :: 0 <= i < |GroupByKey(Keyed(t, fs, list))| ==> AllStaged(t, fs, GroupByKey(Keyed(t, fs, list))[i].1, steps + 1, bound)
    ensures forall x :: x in InvalidatedGroups(t, fs, GroupByKey(Keyed(t, fs, list)), n, steps, bound) ==> MetIn(t, fs, list, x)
    decreases bound - steps, 0, n
  {
    var gs := GroupByKey(Keyed(t, fs, list));
    if n > 0 {
      GroupsSound(t, fs, list, n - 1, steps, bound);
      InvalidatedSound(t, fs, gs[n - 1].1, steps + 1, bound);
      forall x | x in Invalidated(t, fs, gs[n - 1].1, steps + 1, bound) ensures MetIn(t, fs, list, x) {
        GroupMet(t, fs, list, steps, bound, n - 1, x);
      }
    }
  }

  /** Readings whose increments reach the same event and then agree for n more increments agree for n + 1. Twin of RotateFacts.AgreeShift, for the other reading type. */
  lemma AgreeShift(t: seq<Event>, fs: seq<Frame>, c: RotatedPattern, q: RotatedPattern, n: nat)
    requires Ready(t, fs, Increment(c)) && Ready(t, fs, Increment(q))
    requires Key(t, fs, Increment(c)) == Key(t, fs, Increment(q))
    requires Agree(t, fs, Increment(c), Increment(q), n)
    ensures Agree(t, fs, c, q, n + 1)
  {
    forall j: nat | 1 <= j <= n + 1
      ensures Ready(t, fs, Advance(c, j)) && Ready(t, fs, Advance(q, j)) && Key(t, fs, Advance(c, j)) == Key(t, fs, Advance(q, j))
    {
      AdvanceShift(c, j - 1);
      AdvanceShift(q, j - 1);
      if j == 1 {
        assert Advance(c, 0) == c && Advance(q, 0) == q;
      }
    }
  }

  /** A frame met within a group of the partition is met in the list the group came from, one increment earlier. */
  lemma GroupMet(t: seq<Event>, fs: seq<Frame>, list: seq<RotatedPattern>, steps: nat, bound: nat, i: nat, x: nat)
    requires AllStaged(t, fs, list, steps, bound)
    requires i < |GroupByKey(Keyed(t, fs, list))|
    requires MetIn(t, fs, GroupByKey(Keyed(t, fs, list))[i].1, x)
    ensures MetIn(t, fs, list, x)
  {
    var g := GroupByKey(Keyed(t, fs, list))[i];
    var c', q' :| c' in g.1 && q' in g.1 && c'.frame == x && q'.frame != x && q'.frame < |fs| && Ready(t, fs, c') &&
      Contained(fs[x].intervals, fs[q'.frame].intervals) && Agree(t, fs, c', q', Remaining(c') - 1);
    assert forall j :: 0 <= j < |list| ==> Staged(t, fs, list[j], steps, bound);
    GroupMemberOrigin(t, fs, list, i, c');
    GroupMemberOrigin(t, fs, list, i, q');
    var c :| c in list && c' == Increment(c) && Increment(c).index != c.rotatedStart;
    var q :| q in list && q' == Increment(q) && Increment(q).index != q.rotatedStart;
    var jc :| 0 <= jc < |list| && list[jc] == c;
    var jq :| 0 <= jq < |list| && list[jq] == q;
    assert Ready(t, fs, c);
    IncrementRemaining(c);
    AgreeShift(t, fs, c, q, Remaining(c') - 1);
    assert Agree(t, fs, c, q, Remaining(c) - 1);
  }

  /**
   * What filter leaves: the same frames in the same order, changed in their
   * flag only; a flag is never set, and one that is cleared belongs to a
   * frame contained in a different frame.
   */
  lemma SubFilteredSpec(t: seq<Event>, fs: seq<Frame>, readings: seq<RotatedPattern>)
    requires AllStaged(t, fs, readings, 0, MaxLength(fs))
    ensures |SubFiltered(t, fs, readings)| == |fs|
    ensures forall i :: 0 <= i < |fs| ==> SubFiltered(t, fs, readings)[i] == fs[i].(valid := SubFiltered(t, fs, readings)[i].valid)
    ensures forall i :: 0 <= i < |fs| && SubFiltered(t, fs, readings)[i].valid ==> fs[i].valid
    ensures forall i :: 0 <= i < |fs| && fs[i].valid && !SubFiltered(t, fs, readings)[i].valid ==> Subsumed(fs, i)
    ensures forall i :: 0 <= i < |fs| && fs[i].valid && !SubFiltered(t, fs, readings)[i].valid ==> MetIn(t, fs, readings, i)
  {
    if |readings| > 0 {
      InvalidatedSound(t, fs, readings, 0, MaxLength(fs));
      forall i | 0 <= i < |fs| && fs[i].valid && !SubFiltered(t, fs, readings)[i].valid ensures Subsumed(fs, i) {
        MetSubsumed(t, fs, readings, i);
      }
    }
  }

  /** The frames filter hands on are frames of the input whose flags it left set; every other input frame is dropped. */
  lemma FilterOutput(t: seq<Event>, fs: seq<Frame>, readings: seq<RotatedPattern>)
    requires AllStaged(t, fs, readings, 0, MaxLength(fs)) && |readings| > 0
    ensures forall f :: f in KeepValid(SubFiltered(t, fs, readings)) <==> f in SubFiltered(t, fs, readings) && f.valid
    ensures forall f :: f in KeepValid(SubFiltered(t, fs, readings)) ==>
      exists i :: 0 <= i < |fs| && fs[i] == f && i !in Invalidated(t, fs, readings, 0, MaxLength(fs))
  {
    var r := SubFiltered(t, fs, readings);
    KeepValidSpec(r);
    forall f | f in KeepValid(r)
      ensures exists i :: 0 <= i < |fs| && fs[i] == f && i !in Invalidated(t, fs, readings, 0, MaxLength(fs))
    {
      var i :| 0 <= i < |r| && r[i] == f;
      assert fs[i] == f;
    }
  }
}
