/**
 * The pattern frames the three filters work on. The engine reports a frame
 * as start, end and count; before filtering, the caller attaches to it the
 * intervals it occupies, their span and a valid flag.
 */
module Frames {
  import opened Intervals
  import opened Events

  datatype Frame = Frame(start: int, end: int, count: int, intervals: seq<Interval>, span: int, valid: bool)

  datatype Option<T> = None | Some(value: T)

  /** Number of events in the body trace[start + 1..end + 1]. */
  function Length(f: Frame): int
  {
    f.end - f.start
  }

  /** The body lies inside the trace. */
  predicate InTrace(t: seq<Event>, f: Frame)
  {
    0 <= f.start <= f.end < |t|
  }

  /** The trace line at position k, or nothing past the end (JavaScript's `undefined`). */
  function At(t: seq<Event>, k: int): (r: Option<Event>)
    requires 0 <= k
    ensures r.Some? <==> k < |t|
    ensures r.Some? ==> r.value == t[k]
  {
    if k < |t| then Some(t[k]) else None
  }

  /** The longest body among the frames (0 for none): a bound on how deep the filters recurse. */
  function MaxLength(fs: seq<Frame>): (m: nat)
    ensures forall i :: 0 <= i < |fs| ==> Length(fs[i]) <= m
  {
    if |fs| == 0 then 0 else Max(MaxLength(fs[..|fs| - 1]), Length(fs[|fs| - 1]))
  }

  /** Every frame whose flag is still set, in the original order. */
  function KeepValid(fs: seq<Frame>): (r: seq<Frame>)
    ensures |r| <= |fs|
  {
    if |fs| == 0 then []
    else KeepValid(fs[..|fs| - 1]) + (if fs[|fs| - 1].valid then [fs[|fs| - 1]] else [])
  }

  /**
   * KeepValid keeps exactly the valid frames: each kept frame is valid and
   * comes from the input, and every valid input frame is kept.
   */
  lemma {:induction false} KeepValidSpec(fs: seq<Frame>)
    ensures forall f :: f in KeepValid(fs) <==> f in fs && f.valid
  {
    if |fs| > 0 {
      var init := fs[..|fs| - 1];
      KeepValidSpec(init);
      assert fs == init + [fs[|fs| - 1]];
    }
  }

  /**
   * KeepValid keeps the input order: filtering a concatenation filters each
   * part in place, so a frame before another in the input stays before it.
   */
  lemma {:induction false} KeepValidConcat(a: seq<Frame>, b: seq<Frame>)
    ensures KeepValid(a + b) == KeepValid(a) + KeepValid(b)
    decreases |b|
  {
    if |b| == 0 {
      assert a + b == a;
    } else {
      var init := b[..|b| - 1];
      KeepValidConcat(a, init);
      assert (a + b)[..|a + b| - 1] == a + init;
    }
  }

  /** One more frame of a prefix: it is kept exactly when its flag is set. */
  lemma KeepValidSnoc(fs: seq<Frame>, i: nat)
    requires i < |fs|
    ensures KeepValid(fs[..i + 1]) == KeepValid(fs[..i]) + (if fs[i].valid then [fs[i]] else [])
  {
    assert fs[..i + 1][..i] == fs[..i];
  }

  /** With every flag still set, nothing is taken out. */
  lemma {:induction false} KeepAllValid(fs: seq<Frame>)
    requires forall i :: 0 <= i < |fs| ==> fs[i].valid
    ensures KeepValid(fs) == fs
  {
    if |fs| > 0 {
      KeepAllValid(fs[..|fs| - 1]);
      assert fs == fs[..|fs| - 1] + [fs[|fs| - 1]];
    }
  }

  /** The frames with the flag cleared at the positions in `gone`; nothing else changes. */
  function Clear(fs: seq<Frame>, gone: set<nat>): (r: seq<Frame>)
    ensures |r| == |fs|
    ensures forall i :: 0 <= i < |fs| ==> r[i] == fs[i].(valid := fs[i].valid && i !in gone)
  {
    seq(|fs|, i requires 0 <= i < |fs| => fs[i].(valid := fs[i].valid && i !in gone))
  }

  /** Clearing one more position is clearing the larger set. */
  lemma ClearAdd(fs: seq<Frame>, gone: set<nat>, x: nat)
    requires x < |fs|
    ensures Clear(fs, gone)[x := Clear(fs, gone)[x].(valid := false)] == Clear(fs, gone + {x})
  {
  }

  /** The frames agree on everything the filters read: position, end and intervals. */
  predicate Like(a: seq<Frame>, b: seq<Frame>)
  {
    |a| == |b| && forall i :: 0 <= i < |a| ==> a[i].start == b[i].start && a[i].end == b[i].end && a[i].intervals == b[i].intervals
  }

  /** Clearing twice is clearing the union; clearing never sets a flag. */
  lemma ClearTwice(fs: seq<Frame>, a: set<nat>, b: set<nat>)
    ensures Clear(Clear(fs, a), b) == Clear(fs, a + b)
    ensures forall i :: 0 <= i < |fs| && Clear(fs, a)[i].valid ==> fs[i].valid
  {
  }
}
