/**
 * Trace events and call-stack depth. A trace line of the program is the
 * text "enter:<name>" or "exit:<name>"; the model keeps the parsed form and
 * recovers the text only where the program compares lines as strings.
 */
module Events {

  datatype Event = Enter(name: string) | Exit(name: string)

  /** The trace line of an event, as the program stores it. */
  function Line(e: Event): string
  {
    match e
    case Enter(n) => "enter:" + n
    case Exit(n) => "exit:" + n
  }

  /**
   * JavaScript's `<` on strings: the first differing character decides, and
   * a proper prefix is smaller.
   */
  predicate LexLess(a: string, b: string)
  {
    if |a| == 0 then |b| > 0
    else if |b| == 0 then false
    else if a[0] != b[0] then a[0] < b[0]
    else LexLess(a[1..], b[1..])
  }

  lemma {:induction false} LexIrreflexive(a: string)
    ensures !LexLess(a, a)
  {
    if |a| > 0 {
      LexIrreflexive(a[1..]);
    }
  }

  lemma {:induction false} LexTransitive(a: string, b: string, c: string)
    requires LexLess(a, b) && LexLess(b, c)
    ensures LexLess(a, c)
  {
    if |a| > 0 && |b| > 0 && |c| > 0 && a[0] == b[0] && b[0] == c[0] {
      LexTransitive(a[1..], b[1..], c[1..]);
    }
  }

  /** Of two different strings exactly one is smaller. */
  lemma {:induction false} LexTotal(a: string, b: string)
    ensures a != b <==> LexLess(a, b) || LexLess(b, a)
    ensures !(LexLess(a, b) && LexLess(b, a))
  {
    if |a| > 0 && |b| > 0 && a[0] == b[0] {
      LexTotal(a[1..], b[1..]);
      assert a == [a[0]] + a[1..] && b == [b[0]] + b[1..];
    } else if a == b {
      LexIrreflexive(a);
    }
  }

  /** Different events have different lines. */
  lemma LineInjective(e: Event, f: Event)
    ensures Line(e) == Line(f) <==> e == f
  {
    assert Line(e)[1] == (if e.Enter? then 'n' else 'x');
    assert Line(f)[1] == (if f.Enter? then 'n' else 'x');
    if Line(e) == Line(f) {
      if e.Enter? && f.Enter? {
        assert e.name == Line(e)[6..] && f.name == Line(f)[6..];
      } else if e.Exit? && f.Exit? {
        assert e.name == Line(e)[5..] && f.name == Line(f)[5..];
      }
    }
  }

  /** Every enter line sorts before every exit line ("en" < "ex"). */
  lemma EnterLinesFirst(n: string, m: string)
    ensures LexLess(Line(Enter(n)), Line(Exit(m)))
  {
    var a, b := Line(Enter(n)), Line(Exit(m));
    assert a[0] == b[0] == 'e';
    assert a[1..][0] == 'n' && b[1..][0] == 'x';
  }

  /** Change of stack height caused by one event. */
  function Delta(e: Event): int
  {
    if e.Enter? then 1 else -1
  }

  /** Net stack height gained over a run of events. */
  function Depth(s: seq<Event>): int
  {
    if |s| == 0 then 0 else Depth(s[..|s| - 1]) + Delta(s[|s| - 1])
  }

  lemma {:induction false} DepthConcat(a: seq<Event>, b: seq<Event>)
    ensures Depth(a + b) == Depth(a) + Depth(b)
    decreases |b|
  {
    if |b| > 0 {
      DepthConcat(a, b[..|b| - 1]);
      assert (a + b)[..|a + b| - 1] == a + b[..|b| - 1];
    } else {
      assert a + b == a;
    }
  }

  /** No prefix goes below the height the run started at. */
  predicate PrefixNonNeg(s: seq<Event>)
  {
    forall k :: 0 <= k <= |s| ==> Depth(s[..k]) >= 0
  }

  /** A complete call stack: never below the start, back to it at the end. */
  predicate Balanced(s: seq<Event>)
  {
    PrefixNonNeg(s) && Depth(s) == 0
  }

  lemma PrefixNonNegSnoc(s: seq<Event>, e: Event)
    requires PrefixNonNeg(s) && Depth(s + [e]) >= 0
    ensures PrefixNonNeg(s + [e])
  {
    forall k | 0 <= k <= |s + [e]| ensures Depth((s + [e])[..k]) >= 0 {
      if k <= |s| {
        assert (s + [e])[..k] == s[..k];
      } else {
        assert (s + [e])[..k] == s + [e];
      }
    }
  }

  /**
   * A trace wrapped in one outermost call: every proper non-empty prefix is
   * at height at least one and the whole trace is back at height zero.
   */
  predicate Wrapped(t: seq<Event>)
  {
    |t| >= 2 && Depth(t) == 0 && forall k :: 1 <= k < |t| ==> Depth(t[..k]) >= 1
  }

  /** In a wrapped trace, everything after a non-final position ends below its start. */
  lemma WrappedSuffix(t: seq<Event>, s: int)
    requires Wrapped(t) && 0 <= s < |t| - 1
    ensures Depth(t[s + 1..]) <= -1
  {
    DepthConcat(t[..s + 1], t[s + 1..]);
    assert t[..s + 1] + t[s + 1..] == t;
  }

  /** The root call added around a trace. */
  function Wrap(raw: seq<Event>): (t: seq<Event>)
    ensures |t| == |raw| + 2
    ensures forall k :: 0 <= k < |raw| ==> t[k + 1] == raw[k]
  {
    [Enter("root")] + raw + [Exit("root")]
  }

  /** Wrapping a complete call stack (or a run of them) gives a wrapped trace. */
  lemma WrapBalanced(raw: seq<Event>)
    requires Balanced(raw)
    ensures Wrapped(Wrap(raw))
  {
    var t := Wrap(raw);
    forall k | 1 <= k < |t| ensures Depth(t[..k]) >= 1 {
      assert t[..k] == [Enter("root")] + raw[..k - 1];
      DepthConcat([Enter("root")], raw[..k - 1]);
      assert Depth([Enter("root")]) == 1 by {
        assert [Enter("root")][..0] == [];
      }
    }
    DepthConcat([Enter("root")] + raw, [Exit("root")]);
    DepthConcat([Enter("root")], raw);
    assert Depth([Exit("root")]) == -1 by {
      assert [Exit("root")][..0] == [];
    }
    assert Depth([Enter("root")]) == 1 by {
      assert [Enter("root")][..0] == [];
    }
    assert raw[..|raw|] == raw;
  }
}
