/**
 * The insertion-ordered `Map` from a key to the list of values pushed under
 * it, as the partition steps of the engine and of all three filters use it:
 * `if (!partition.has(key)) partition.set(key, ...); partition.get(key).push(v)`.
 * A map is a sequence of (key, group) pairs in first-insertion order.
 */
module Grouping {

  /** Push v under k, opening a new group at the end the first time k is seen. */
  function Insert<K(==), V>(gs: seq<(K, seq<V>)>, k: K, v: V): (r: seq<(K, seq<V>)>)
    ensures |gs| <= |r| <= |gs| + 1
  {
    if |gs| == 0 then [(k, [v])]
    else if gs[0].0 == k then [(k, gs[0].1 + [v])] + gs[1..]
    else [gs[0]] + Insert(gs[1..], k, v)
  }

  /** The map after pushing every pair, in order. */
  function GroupByKey<K(==), V>(pairs: seq<(K, V)>): seq<(K, seq<V>)>
  {
    if |pairs| == 0 then []
    else Insert(GroupByKey(pairs[..|pairs| - 1]), pairs[|pairs| - 1].0, pairs[|pairs| - 1].1)
  }

  /** Reference: the values paired with k, in order. */
  function ValuesOf<K(==), V>(pairs: seq<(K, V)>, k: K): seq<V>
  {
    if |pairs| == 0 then []
    else ValuesOf(pairs[..|pairs| - 1], k) + (if pairs[|pairs| - 1].0 == k then [pairs[|pairs| - 1].1] else [])
  }

  /** partition.get(k), or nothing when k is absent. */
  function Lookup<K(==), V>(gs: seq<(K, seq<V>)>, k: K): seq<V>
  {
    if |gs| == 0 then [] else if gs[0].0 == k then gs[0].1 else Lookup(gs[1..], k)
  }

  function Keys<K, V>(gs: seq<(K, seq<V>)>): set<K>
  {
    if |gs| == 0 then {} else {gs[0].0} + Keys(gs[1..])
  }

  /** The keys the pairs use. */
  function PairKeys<K, V>(pairs: seq<(K, V)>): set<K>
  {
    if |pairs| == 0 then {} else PairKeys(pairs[..|pairs| - 1]) + {pairs[|pairs| - 1].0}
  }

  lemma {:induction false} KeysIndex<K, V>(gs: seq<(K, seq<V>)>, x: K)
    ensures x in Keys(gs) <==> exists i :: 0 <= i < |gs| && gs[i].0 == x
  {
    if |gs| > 0 {
      KeysIndex(gs[1..], x);
      if x in Keys(gs[1..]) {
        var i :| 0 <= i < |gs| - 1 && gs[1..][i].0 == x;
        assert gs[i + 1].0 == x;
      }
      if exists i :: 0 <= i < |gs| && gs[i].0 == x {
        var i :| 0 <= i < |gs| && gs[i].0 == x;
        if i > 0 {
          assert gs[1..][i - 1].0 == x;
        }
      }
    }
  }

  predicate KeysDistinct<K(==), V>(gs: seq<(K, seq<V>)>)
  {
    forall i, j :: 0 <= i < j < |gs| ==> gs[i].0 != gs[j].0
  }

  predicate GroupsNonEmpty<K(==), V>(gs: seq<(K, seq<V>)>)
  {
    forall i :: 0 <= i < |gs| ==> |gs[i].1| > 0
  }

  /** All groups, one after the other. */
  function Flatten<K, V>(gs: seq<(K, seq<V>)>): seq<V>
  {
    if |gs| == 0 then [] else gs[0].1 + Flatten(gs[1..])
  }

  function Values<K, V>(pairs: seq<(K, V)>): seq<V>
  {
    if |pairs| == 0 then [] else Values(pairs[..|pairs| - 1]) + [pairs[|pairs| - 1].1]
  }

  lemma {:induction false} InsertKeys<K, V>(gs: seq<(K, seq<V>)>, k: K, v: V)
    ensures Keys(Insert(gs, k, v)) == Keys(gs) + {k}
  {
    var r := Insert(gs, k, v);
    if |gs| == 0 {
      assert r[1..] == [];
    } else if gs[0].0 == k {
      assert r[1..] == gs[1..];
    } else {
      InsertKeys(gs[1..], k, v);
      assert r[1..] == Insert(gs[1..], k, v);
    }
  }

  lemma {:induction false} InsertLookup<K, V>(gs: seq<(K, seq<V>)>, k: K, v: V, k': K)
    ensures Lookup(Insert(gs, k, v), k') == if k' == k then Lookup(gs, k) + [v] else Lookup(gs, k')
  {
    if |gs| > 0 && gs[0].0 != k {
      InsertLookup(gs[1..], k, v, k');
      assert Insert(gs, k, v)[1..] == Insert(gs[1..], k, v);
    }
  }

  lemma {:induction false} InsertShape<K, V>(gs: seq<(K, seq<V>)>, k: K, v: V)
    requires KeysDistinct(gs) && GroupsNonEmpty(gs)
    ensures KeysDistinct(Insert(gs, k, v)) && GroupsNonEmpty(Insert(gs, k, v))
  {
    var r := Insert(gs, k, v);
    if |gs| > 0 && gs[0].0 != k {
      var t := gs[1..];
      InsertShape(t, k, v);
      InsertKeys(t, k, v);
      var rt := Insert(t, k, v);
      assert r == [gs[0]] + rt;
      forall i, j | 0 <= i < j < |r| ensures r[i].0 != r[j].0 {
        if i == 0 {
          assert r[j] == rt[j - 1];
          KeysIndex(rt, r[j].0);
          if r[j].0 != k {
            KeysIndex(t, r[j].0);
            var m :| 0 <= m < |t| && t[m].0 == r[j].0;
            assert gs[m + 1].0 == r[j].0;
          }
        } else {
          assert r[i] == rt[i - 1] && r[j] == rt[j - 1];
        }
      }
      forall i | 0 <= i < |r| ensures |r[i].1| > 0 {
        if i > 0 {
          assert r[i] == rt[i - 1];
        }
      }
    } else if |gs| > 0 {
      assert r[1..] == gs[1..];
      forall i, j | 0 <= i < j < |r| ensures r[i].0 != r[j].0 {
        assert r[j] == gs[j];
        if i > 0 {
          assert r[i] == gs[i];
        }
      }
      forall i | 0 <= i < |r| ensures |r[i].1| > 0 {
        if i > 0 {
          assert r[i] == gs[i];
        }
      }
    }
  }

  lemma {:induction false} InsertFlatten<K, V>(gs: seq<(K, seq<V>)>, k: K, v: V)
    ensures multiset(Flatten(Insert(gs, k, v))) == multiset(Flatten(gs)) + multiset{v}
  {
    var r := Insert(gs, k, v);
    if |gs| == 0 {
      assert r[1..] == [];
    } else if gs[0].0 == k {
      assert r[1..] == gs[1..];
    } else {
      InsertFlatten(gs[1..], k, v);
      assert r[1..] == Insert(gs[1..], k, v);
    }
  }

  lemma {:induction false} GroupByKeyFacts<K, V>(pairs: seq<(K, V)>)
    ensures KeysDistinct(GroupByKey(pairs)) && GroupsNonEmpty(GroupByKey(pairs))
    ensures Keys(GroupByKey(pairs)) == PairKeys(pairs)
    ensures forall k :: Lookup(GroupByKey(pairs), k) == ValuesOf(pairs, k)
    ensures multiset(Flatten(GroupByKey(pairs))) == multiset(Values(pairs))
  {
    if |pairs| > 0 {
      var init, last := pairs[..|pairs| - 1], pairs[|pairs| - 1];
      GroupByKeyFacts(init);
      var g := GroupByKey(init);
      InsertShape(g, last.0, last.1);
      InsertKeys(g, last.0, last.1);
      InsertFlatten(g, last.0, last.1);
      forall k ensures Lookup(GroupByKey(pairs), k) == ValuesOf(pairs, k) {
        InsertLookup(g, last.0, last.1, k);
      }
    }
  }

  lemma {:induction false} LookupAt<K, V>(gs: seq<(K, seq<V>)>, i: nat)
    requires KeysDistinct(gs) && i < |gs|
    ensures Lookup(gs, gs[i].0) == gs[i].1
  {
    if i > 0 {
      assert gs[0].0 != gs[i].0;
      assert gs[1..][i - 1] == gs[i];
      LookupAt(gs[1..], i - 1);
    }
  }

  /**
   * The map groups the pairs by key: keys are distinct and exactly those of
   * the pairs, each group is non-empty and holds that key's values in their
   * original order, and all groups together hold every value exactly once.
   */
  lemma GroupByKeySpec<K, V>(pairs: seq<(K, V)>)
    ensures KeysDistinct(GroupByKey(pairs)) && GroupsNonEmpty(GroupByKey(pairs))
    ensures Keys(GroupByKey(pairs)) == PairKeys(pairs)
    ensures forall i :: 0 <= i < |GroupByKey(pairs)| ==>
              GroupByKey(pairs)[i].1 == ValuesOf(pairs, GroupByKey(pairs)[i].0)
    ensures multiset(Flatten(GroupByKey(pairs))) == multiset(Values(pairs))
  {
    var gs := GroupByKey(pairs);
    GroupByKeyFacts(pairs);
    forall i | 0 <= i < |gs| ensures gs[i].1 == ValuesOf(pairs, gs[i].0) {
      LookupAt(gs, i);
      assert Lookup(gs, gs[i].0) == ValuesOf(pairs, gs[i].0);
    }
  }

  /** Every value of key k comes from a pair with key k. */
  lemma {:induction false} ValuesOfMember<K, V>(pairs: seq<(K, V)>, k: K, v: V)
    requires v in ValuesOf(pairs, k)
    ensures (k, v) in pairs
  {
    var n := |pairs|;
    if v in ValuesOf(pairs[..n - 1], k) {
      ValuesOfMember(pairs[..n - 1], k, v);
    }
  }

  lemma {:induction false} PairKeysMember<K, V>(pairs: seq<(K, V)>, k: K, v: V)
    requires (k, v) in pairs
    ensures k in PairKeys(pairs)
  {
    var n := |pairs|;
    if pairs[n - 1] != (k, v) {
      var m :| 0 <= m < n && pairs[m] == (k, v);
      assert pairs[..n - 1][m] == (k, v);
      PairKeysMember(pairs[..n - 1], k, v);
    }
  }

  /** Every pair with key k contributes its value to k's group. */
  lemma {:induction false} ValuesOfComplete<K, V>(pairs: seq<(K, V)>, k: K, v: V)
    requires (k, v) in pairs
    ensures v in ValuesOf(pairs, k)
  {
    var n := |pairs|;
    if pairs[n - 1] != (k, v) {
      var m :| 0 <= m < n && pairs[m] == (k, v);
      assert pairs[..n - 1][m] == (k, v);
      ValuesOfComplete(pairs[..n - 1], k, v);
    }
  }

  /** Grouping keeps the relative order of values: ascending values stay ascending. */
  lemma {:induction false} ValuesOfAscending<K>(pairs: seq<(K, int)>, k: K)
    requires forall i, j :: 0 <= i < j < |pairs| ==> pairs[i].1 < pairs[j].1
    ensures forall i, j :: 0 <= i < j < |ValuesOf(pairs, k)| ==> ValuesOf(pairs, k)[i] < ValuesOf(pairs, k)[j]
  {
    var n := |pairs|;
    if n > 0 {
      var init := pairs[..n - 1];
      ValuesOfAscending(init, k);
      if pairs[n - 1].0 == k {
        var w := ValuesOf(init, k);
        forall x | x in w ensures x < pairs[n - 1].1 {
          ValuesOfMember(init, k, x);
          var m :| 0 <= m < |init| && init[m] == (k, x);
        }
        var r := ValuesOf(pairs, k);
        assert r == w + [pairs[n - 1].1];
        forall i, j | 0 <= i < j < |r| ensures r[i] < r[j] {
          if j == |w| {
            assert r[i] in w;
          } else {
            assert r[i] == w[i] && r[j] == w[j];
          }
        }
      }
    }
  }
}
