/**
 * What the partial-pattern filter promises: at each offset a whole reading
 * past its length completes and a partial one is dropped; a frame loses its
 * flag exactly when a completed whole reading of it meets another reading
 * of the same list (possibly of the same frame) whose frame's intervals
 * contain its own; no flag is ever set.
 */
module PartialPatternFacts {
  import opened Intervals
  import opened Events
  import opened Grouping
  import opened Frames
  import opened PartialPattern

  /** At this offset, a whole reading of frame x has completed and another reading of the list has intervals containing x's. */
  ghost predicate Witnessed(fs: seq<Frame>, list: seq<PartialPattern>, level: nat, x: nat)
  {
    x < |fs| &&
      exists c, q :: c in list && q in list && c.whole && level > c.length && c.frame == x && q.id != c.id && q.frame < |fs| &&
        Contained(fs[x].intervals, fs[q.frame].intervals)
  }

  /**
   * A whole reading c of frame x and another reading q of the list, whose
   * frame's intervals contain x's, reach the same trace line at every offset
   * after the given one up to c's length: they shared the group of every
   * partition on the way.
   */
  ghost predicate Matched(t: seq<Event>, fs: seq<Frame>, list: seq<PartialPattern>, offset: nat, x: nat)
  {
    x < |fs| &&
      exists c, q :: (c in list && q in list && c.whole && c.frame == x && q.id != c.id && q.frame < |fs| &&
        0 <= c.partialStart && 0 <= q.partialStart && Contained(fs[x].intervals, fs[q.frame].intervals) &&
        forall o: nat :: offset < o <= c.length ==> Key(t, c, o) == Key(t, q, o))
  }

  lemma {:induction false} HitsMeaning(fs: seq<Frame>, c: PartialPattern, list: seq<PartialPattern>, m: nat)
    requires c.frame < |fs| && m <= |list| && Within(fs, list)
    ensures Hits(fs, c, list, m) <==>
      exists j :: 0 <= j < m && list[j].id != c.id && Contained(fs[c.frame].intervals, fs[list[j].frame].intervals)
  {
    if m > 0 {
      HitsMeaning(fs, c, list, m - 1);
    }
  }

  /** The first n completed readings clear frame x iff one of them reads x and is hit. Twin of SubPatternFacts.ClearedByMeaning, for the other reading type. */
  lemma {:induction false} ClearedByMeaning(fs: seq<Frame>, completed: seq<PartialPattern>, list: seq<PartialPattern>, n: nat, x: nat)
    requires n <= |completed| && Within(fs, completed) && Within(fs, list)
    ensures x in ClearedBy(fs, completed, list, n) <==>
      exists i :: 0 <= i < n && completed[i].frame == x && Hits(fs, completed[i], list, |list|)
  {
    if n > 0 {
      ClearedByMeaning(fs, completed, list, n - 1, x);
    }
  }

  lemma ClearedOnlyIf(fs: seq<Frame>, list: seq<PartialPattern>, level: nat, x: nat)
    requires Within(fs, Completed(list, level)) && Within(fs, list)
    requires exists i :: (0 <= i < |Completed(list, level)| && Completed(list, level)[i].frame == x &&
      Hits(fs, Completed(list, level)[i], list, |list|))
    ensures Witnessed(fs, list, level, x)
  {
    var done := Completed(list, level);
    CompletedMembers(list, level);
    var i :| 0 <= i < |done| && done[i].frame == x && Hits(fs, done[i], list, |list|);
    HitsMeaning(fs, done[i], list, |list|);
    var j :| 0 <= j < |list| && list[j].id != done[i].id && Contained(fs[x].intervals, fs[list[j].frame].intervals);
    assert done[i] in done;
    assert list[j] in list;
  }

  lemma ClearedIf(fs: seq<Frame>, list: seq<PartialPattern>, level: nat, x: nat)
    requires Within(fs, Completed(list, level)) && Within(fs, list)
    requires Witnessed(fs, list, level, x)
    ensures exists i :: (0 <= i < |Completed(list, level)| && Completed(list, level)[i].frame == x &&
      Hits(fs, Completed(list, level)[i], list, |list|))
  {
    var done := Completed(list, level);
    CompletedMembers(list, level);
    var c, q :| c in list && q in list && c.whole && level > c.length && c.frame == x && q.id != c.id && q.frame < |fs| &&
      Contained(fs[x].intervals, fs[q.frame].intervals);
    assert c in done;
    var i :| 0 <= i < |done| && done[i] == c;
    var j :| 0 <= j < |list| && list[j] == q;
    HitsMeaning(fs, c, list, |list|);
  }

  /**
   * One call of filterR, at the offset it has advanced to, clears frame x
   * iff a whole reading of x has run past its length there and another
   * reading of the list has intervals containing x's.
   */
  lemma ClearedMeaning(fs: seq<Frame>, list: seq<PartialPattern>, level: nat, bound: nat, x: nat)
    requires AllStaged(fs, list, bound)
    ensures x in Cleared(fs, list, level, bound) <==> Witnessed(fs, list, level, x)
  {
    ClearedWithin(fs, list, level, bound);
    ClearedByMeaning(fs, Completed(list, level), list, |Completed(list, level)|, x);
    if x in Cleared(fs, list, level, bound) {
      ClearedOnlyIf(fs, list, level, x);
    }
    if Witnessed(fs, list, level, x) {
      ClearedIf(fs, list, level, x);
    }
  }

  /** A partial reading past its length leaves without trace: it neither completes nor goes into the partition. */
  lemma Dropped(t: seq<Event>, fs: seq<Frame>, list: seq<PartialPattern>, level: nat, p: PartialPattern)
    requires forall i :: 0 <= i < |list| ==> 0 <= list[i].partialStart
    requires p in list && !p.whole && level > p.length
    ensures p !in Completed(list, level)
    ensures forall x :: x in Keyed(t, fs, list, level) ==> x.1 != p
  {
    CompletedMembers(list, level);
    KeyedMembers(t, fs, list, level);
  }

  /** Every reading of every group is a reading of the list still inside its length. */
  lemma GroupMembers(t: seq<Event>, fs: seq<Frame>, list: seq<PartialPattern>, level: nat)
    requires forall i :: 0 <= i < |list| ==> 0 <= list[i].partialStart
    ensures forall i, p :: 0 <= i < |GroupByKey(Keyed(t, fs, list, level))| && p in GroupByKey(Keyed(t, fs, list, level))[i].1 ==>
      p in list && level <= p.length && Key(t, p, level) == GroupByKey(Keyed(t, fs, list, level))[i].0
  {
    var pairs := Keyed(t, fs, list, level);
    var gs := GroupByKey(pairs);
    KeyedMembers(t, fs, list, level);
    GroupByKeySpec(pairs);
    forall i, p | 0 <= i < |gs| && p in gs[i].1 ensures p in list && level <= p.length && Key(t, p, level) == gs[i].0 {
      assert gs[i].1 == ValuesOf(pairs, gs[i].0);
      ValuesOfMember(pairs, gs[i].0, p);
    }
  }

  lemma InvalidatedSound(t: seq<Event>, fs: seq<Frame>, list: seq<PartialPattern>, offset: nat, bound: nat)
    requires AllStaged(fs, list, bound)
    ensures forall x :: x in Invalidated(t, fs, list, offset, bound) ==> Matched(t, fs, list, offset, x)
    decreases bound - offset, 2, 0
  {
    forall x | x in Cleared(fs, list, offset + 1, bound) ensures Matched(t, fs, list, offset, x) {
      ClearedMeaning(fs, list, offset + 1, bound, x);
      var c, q :| c in list && q in list && c.whole && offset + 1 > c.length && c.frame == x && q.id != c.id && q.frame < |fs| &&
        Contained(fs[x].intervals, fs[q.frame].intervals);
      var i :| 0 <= i < |list| && list[i] == c;
      var j :| 0 <= j < |list| && list[j] == q;
      assert Staged(fs, list[i], bound) && Staged(fs, list[j], bound);
    }
    ChildrenSound(t, fs, list, offset, bound);
  }

  lemma ChildrenSound(t: seq<Event>, fs: seq<Frame>, list: seq<PartialPattern>, offset: nat, bound: nat)
    requires AllStaged(fs, list, bound)
    ensures forall x :: x in Children(t, fs, list, offset, bound) ==> Matched(t, fs, list, offset, x)
    decreases bound - offset, 1, 0
  {
    ChildrenStaged(t, fs, list, offset + 1, bound);
    assert forall i :: 0 <= i < |list| ==> 0 <= list[i].partialStart by {
      assert forall i :: 0 <= i < |list| ==> Staged(fs, list[i], bound);
    }
    GroupMembers(t, fs, list, offset + 1);
    var gs := GroupByKey(Keyed(t, fs, list, offset + 1));
    GroupsSound(t, fs, gs, |gs|, offset, bound, list);
  }

  lemma {:induction false} GroupsSound(t: seq<Event>, fs: seq<Frame>, gs: seq<(Option<Event>, seq<PartialPattern>)>, n: nat, offset: nat, bound: nat,
                                       list: seq<PartialPattern>)
    requires n <= |gs| && (n > 0 ==> offset + 1 <= bound)
    requires forall i :: 0 <= i < |gs| ==> AllStaged(fs, gs[i].1, bound)
    requires forall i, p :: 0 <= i < |gs| && p in gs[i].1 ==> p in list && 0 <= p.partialStart && Key(t, p, offset + 1) == gs[i].0
    ensures forall x :: x in InvalidatedGroups(t, fs, gs, n, offset + 1, bound) ==> Matched(t, fs, list, offset, x)
    decreases bound - offset, 0, n
  {
    if n > 0 {
      GroupsSound(t, fs, gs, n - 1, offset, bound, list);
      InvalidatedSound(t, fs, gs[n - 1].1, offset + 1, bound);
      forall x | x in Invalidated(t, fs, gs[n - 1].1, offset + 1, bound) ensures Matched(t, fs, list, offset, x) {
        var c, q :| (c in gs[n - 1].1 && q in gs[n - 1].1 && c.whole && c.frame == x && q.id != c.id && q.frame < |fs| &&
          0 <= c.partialStart && 0 <= q.partialStart && Contained(fs[x].intervals, fs[q.frame].intervals) &&
          forall o: nat :: offset + 1 < o <= c.length ==> Key(t, c, o) == Key(t, q, o));
        assert Key(t, c, offset + 1) == gs[n - 1].0 == Key(t, q, offset + 1);
      }
    }
  }

  /**
   * What filter leaves: the same frames in the same order, changed in their
   * flag only; a flag is never set, and one that is cleared belongs to a
   * frame whose whole reading reached the same trace line as another
   * reading, of a frame with intervals containing its own, at every offset
   * from 1 to its length.
   */
  lemma PartialFilteredSpec(t: seq<Event>, fs: seq<Frame>, readings: seq<PartialPattern>)
    requires AllStaged(fs, readings, MaxLength(fs))
    ensures |PartialFiltered(t, fs, readings)| == |fs|
    ensures forall i :: 0 <= i < |fs| ==> PartialFiltered(t, fs, readings)[i] == fs[i].(valid := PartialFiltered(t, fs, readings)[i].valid)
    ensures forall i :: 0 <= i < |fs| && PartialFiltered(t, fs, readings)[i].valid ==> fs[i].valid
    ensures forall i :: 0 <= i < |fs| && fs[i].valid && !PartialFiltered(t, fs, readings)[i].valid ==> Matched(t, fs, readings, 0, i)
  {
    if |readings| > 0 {
      InvalidatedSound(t, fs, readings, 0, MaxLength(fs));
    }
  }
}
