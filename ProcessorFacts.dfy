/**
 * What the stack machine of processRawEvents guarantees: the function names
 * it collects, the stack shape and depths, the largest depth, one finished
 * call per exit, and that every finished call spans a balanced run of events.
 */
module ProcessorFacts {
  import opened Events
  import opened Frames
  import opened Processor

  /** Number of enter events among the first n. */
  function Enters(raws: seq<RawEvent>, n: nat): nat
    requires n <= |raws|
  {
    if n == 0 then 0 else Enters(raws, n - 1) + (if IsEnter(raws[n - 1]) then 1 else 0)
  }

  /** Number of exit events among the first n. */
  function Exits(raws: seq<RawEvent>, n: nat): nat
    requires n <= |raws|
  {
    if n == 0 then 0 else Exits(raws, n - 1) + (if IsExit(raws[n - 1]) then 1 else 0)
  }

  /**
   * The precondition of processRawEvents spelled out: every exit among the
   * first n events finds at least one open call.
   */
  lemma {:induction false} NoStrayExitMeaning(d: int, raws: seq<RawEvent>, n: nat)
    requires n <= |raws|
    ensures NoStrayExit(d, raws, n) <==> forall k :: 0 <= k < n && IsExit(raws[k]) ==> d + Opened(raws, k) > 0
  {
    if n > 0 {
      NoStrayExitMeaning(d, raws, n - 1);
    }
  }

  /** The names of the first n raw events. */
  function Names(raws: seq<RawEvent>, n: nat): set<string>
    requires n <= |raws|
  {
    if n == 0 then {} else Names(raws, n - 1) + {raws[n - 1].name}
  }

  lemma {:induction false} NamesMeaning(raws: seq<RawEvent>, n: nat, x: string)
    requires n <= |raws|
    ensures x in Names(raws, n) <==> exists k :: 0 <= k < n && raws[k].name == x
  {
    if n > 0 {
      NamesMeaning(raws, n - 1, x);
    }
  }

  lemma StepFunctions(m: Machine, i: int, r: RawEvent)
    requires IsExit(r) ==> |m.eventStream| > 0
    ensures Step(m, i, r).functions == m.functions + {r.name}
  {
  }

  lemma UnionAssoc(a: set<string>, b: set<string>, c: set<string>)
    ensures a + b + c == a + (b + c)
  {
  }

  /** Every function name read is collected, and nothing else is added. */
  lemma {:induction false} RunFunctions(m: Machine, raws: seq<RawEvent>, n: nat)
    requires n <= |raws| && NoStrayExit(|m.eventStream|, raws, n)
    ensures Run(m, raws, n).functions == m.functions + Names(raws, n)
  {
    if n > 0 {
      RunFunctions(m, raws, n - 1);
      RunStep(m, raws, n - 1);
      StepFunctions(Run(m, raws, n - 1), n - 1, raws[n - 1]);
      UnionAssoc(m.functions, Names(raws, n - 1), {raws[n - 1].name});
    }
  }

  /** One finished call per exit; the stack height is the enters minus the exits. */
  lemma {:induction false} RunCounts(m: Machine, raws: seq<RawEvent>, n: nat)
    requires n <= |raws| && NoStrayExit(|m.eventStream|, raws, n)
    ensures |Run(m, raws, n).processedEvents| == |m.processedEvents| + Exits(raws, n)
    ensures Opened(raws, n) == Enters(raws, n) - Exits(raws, n)
  {
    if n > 0 {
      RunCounts(m, raws, n - 1);
      RunStep(m, raws, n - 1);
      KindsDistinct(raws[n - 1]);
    }
  }

  /** The stack holds open calls at depths 1, 2, ...; finished calls have an end and a depth within the largest reached. */
  predicate Shaped(m: Machine)
  {
    && (forall k :: 0 <= k < |m.eventStream| ==> m.eventStream[k].depth == k + 1 && m.eventStream[k].endIndex.None?)
    && |m.eventStream| <= m.maxStackDepth
    && (forall e :: e in m.processedEvents ==> e.endIndex.Some? && 1 <= e.depth <= m.maxStackDepth)
  }

  lemma StepShaped(m: Machine, i: int, r: RawEvent)
    requires Shaped(m) && (IsExit(r) ==> |m.eventStream| > 0)
    ensures Shaped(Step(m, i, r))
  {
    if IsExit(r) && !IsEnter(r) {
      var top := m.eventStream[|m.eventStream| - 1];
      assert top.depth == |m.eventStream|;
    }
  }

  /** Every call's depth lies in 1..maxStackDepth, and the open calls sit at depths 1, 2, ... */
  lemma {:induction false} RunShaped(m: Machine, raws: seq<RawEvent>, n: nat)
    requires n <= |raws| && NoStrayExit(|m.eventStream|, raws, n) && Shaped(m)
    ensures Shaped(Run(m, raws, n))
  {
    if n > 0 {
      RunShaped(m, raws, n - 1);
      RunStep(m, raws, n - 1);
      StepShaped(Run(m, raws, n - 1), n - 1, raws[n - 1]);
    }
  }

  /** maxStackDepth is the largest stack height reached: no height exceeds it, and it is one of them (or the start value). */
  lemma {:induction false} RunPeak(m: Machine, raws: seq<RawEvent>, n: nat)
    requires n <= |raws| && NoStrayExit(|m.eventStream|, raws, n) && |m.eventStream| <= m.maxStackDepth
    ensures forall j :: 0 <= j <= n ==> |m.eventStream| + Opened(raws, j) <= Run(m, raws, n).maxStackDepth
    ensures || Run(m, raws, n).maxStackDepth == m.maxStackDepth
            || exists j :: 1 <= j <= n && Run(m, raws, n).maxStackDepth == |m.eventStream| + Opened(raws, j)
  {
    if n > 0 {
      RunPeak(m, raws, n - 1);
      RunStep(m, raws, n - 1);
      var before := Run(m, raws, n - 1);
      var after := Run(m, raws, n);
      assert before.maxStackDepth <= after.maxStackDepth;
      assert |after.eventStream| <= after.maxStackDepth;
      if after.maxStackDepth != before.maxStackDepth {
        assert after.maxStackDepth == |m.eventStream| + Opened(raws, n);
      }
    }
  }

  /** raws[a..b] closes every call it opens and never closes one opened before a. */
  predicate BalancedBetween(raws: seq<RawEvent>, a: nat, b: nat)
    requires a <= b <= |raws|
  {
    Opened(raws, b) == Opened(raws, a) && forall j :: a <= j <= b ==> Opened(raws, j) >= Opened(raws, a)
  }

  /** The k-th open call: entered at its start index, with the calls above it opened since. */
  predicate OpenCall(raws: seq<RawEvent>, n: nat, stack: seq<EventObj>, k: nat)
    requires n <= |raws| && k < |stack|
  {
    var s := stack[k].startIndex;
    && 0 <= s < n && IsEnter(raws[s]) && raws[s].name == stack[k].functionName
    && Opened(raws, n) - Opened(raws, s + 1) == |stack| - 1 - k
    && forall j :: s + 1 <= j <= n ==> Opened(raws, j) >= Opened(raws, s + 1)
  }

  function EndOf(e: EventObj): int
  {
    if e.endIndex.Some? then e.endIndex.value else -1
  }

  /** A finished call: entered at startIndex, left right after endIndex, with a balanced body in between. */
  predicate ClosedCall(raws: seq<RawEvent>, n: nat, e: EventObj)
    requires n <= |raws|
  {
    && e.endIndex.Some? && 0 <= e.startIndex <= e.endIndex.value && e.endIndex.value + 1 < n
    && IsEnter(raws[e.startIndex]) && raws[e.startIndex].name == e.functionName
    && IsExit(raws[e.endIndex.value + 1])
    && BalancedBetween(raws, e.startIndex + 1, e.endIndex.value + 1)
  }

  predicate Nested(raws: seq<RawEvent>, n: nat, m: Machine)
    requires n <= |raws|
  {
    && (forall k :: 0 <= k < |m.eventStream| ==> OpenCall(raws, n, m.eventStream, k))
    && (forall e :: e in m.processedEvents ==> ClosedCall(raws, n, e))
    && (forall a, b :: 0 <= a < b < |m.processedEvents| ==> EndOf(m.processedEvents[a]) < EndOf(m.processedEvents[b]))
  }

  lemma StepNested(raws: seq<RawEvent>, n: nat, m: Machine)
    requires n < |raws| && Nested(raws, n, m) && (IsExit(raws[n]) ==> |m.eventStream| > 0)
    ensures Nested(raws, n + 1, Step(m, n, raws[n]))
  {
    var r := raws[n];
    var m' := Step(m, n, r);
    var n1 := n + 1;
    assert Opened(raws, n1) == Opened(raws, n) + RawDelta(r);
    forall e | e in m.processedEvents ensures ClosedCall(raws, n1, e) {
      assert ClosedCall(raws, n, e);
    }
    if IsEnter(r) {
      forall k | 0 <= k < |m'.eventStream| ensures OpenCall(raws, n1, m'.eventStream, k) {
        if k < |m.eventStream| {
          assert OpenCall(raws, n, m.eventStream, k);
        }
      }
    } else if IsExit(r) {
      var top := |m.eventStream| - 1;
      var call := m.eventStream[top];
      assert OpenCall(raws, n, m.eventStream, top);
      forall k | 0 <= k < |m'.eventStream| ensures OpenCall(raws, n1, m'.eventStream, k) {
        assert OpenCall(raws, n, m.eventStream, k);
      }
      var done := call.(endIndex := Some(n - 1));
      assert ClosedCall(raws, n1, done);
      forall e | e in m'.processedEvents ensures ClosedCall(raws, n1, e) {
        if e != done {
          assert e in m.processedEvents;
        }
      }
      forall a, b | 0 <= a < b < |m'.processedEvents| ensures EndOf(m'.processedEvents[a]) < EndOf(m'.processedEvents[b]) {
        if b == |m.processedEvents| {
          assert ClosedCall(raws, n, m.processedEvents[a]);
        }
      }
    } else {
      forall k | 0 <= k < |m'.eventStream| ensures OpenCall(raws, n1, m'.eventStream, k) {
        assert OpenCall(raws, n, m.eventStream, k);
      }
    }
  }

  /**
   * From an idle machine, every finished call was entered at its start
   * index and left right after its end index, its body between them is
   * balanced, and the calls finish in order of their end index; the calls
   * still open were entered in stack order.
   */
  lemma {:induction false} RunNested(m: Machine, raws: seq<RawEvent>, n: nat)
    requires n <= |raws| && m.eventStream == [] && m.processedEvents == [] && NoStrayExit(0, raws, n)
    ensures Nested(raws, n, Run(m, raws, n))
  {
    if n > 0 {
      RunNested(m, raws, n - 1);
      RunStep(m, raws, n - 1);
      StepNested(raws, n - 1, Run(m, raws, n - 1));
    }
  }

  /** The raw events of a body count height as the trace events do. */
  lemma {:induction false} OpenedDepth(t: seq<Event>, f: Frame, k: nat)
    requires Readable(t, f) && f.start < f.end && k <= f.end - f.start
    ensures Opened(RawsOf(t, f), k) == Depth(t[f.start + 1..f.end + 1][..k])
  {
    if k > 0 {
      OpenedDepth(t, f, k - 1);
      var body := t[f.start + 1..f.end + 1];
      assert body[..k][..k - 1] == body[..k - 1];
      assert RawsOf(t, f)[k - 1] == RawOf(body[k - 1]);
      assert "enter" != "exit" by {
        assert "enter"[1] != "exit"[1];
      }
    }
  }

  /**
   * processPatternData on a balanced body (such as the body of a pattern the
   * engine accepts) never pops an empty stack, ends with no open call, and
   * finishes one call per enter, each over a balanced run of events.
   */
  lemma BalancedBody(t: seq<Event>, f: Frame)
    requires Readable(t, f) && f.start < f.end && Balanced(t[f.start + 1..f.end + 1])
    ensures NoStrayExit(0, RawsOf(t, f), |RawsOf(t, f)|)
    ensures var raws := RawsOf(t, f);
            var r := Run(Fresh, raws, |raws|);
            && r.eventStream == []
            && |r.processedEvents| == Enters(raws, |raws|)
            && Nested(raws, |raws|, r)
  {
    var raws := RawsOf(t, f);
    var body := t[f.start + 1..f.end + 1];
    forall k | 0 <= k < |raws| && IsExit(raws[k]) ensures Opened(raws, k) > 0 {
      OpenedDepth(t, f, k);
      OpenedDepth(t, f, k + 1);
      assert Depth(body[..k + 1]) >= 0;
    }
    NoStrayExitMeaning(0, raws, |raws|);
    OpenedDepth(t, f, |raws|);
    assert body[..|raws|] == body;
    RunCounts(Fresh, raws, |raws|);
    RunNested(Fresh, raws, |raws|);
  }
}
