/**
 * Group-by-key into an insertion-ordered association list: the
 * `Map`/object accumulation the report pages build with `get`/`set`.
 * A key met for the first time is appended with its value; a key met again
 * has its entry replaced, in place, by `combine(old, new)`.
 */
module Grouping {
  import opened Wrappers
  import opened Seqs

  /** The value stored under `k`: the first entry with that key. */
  function Lookup<K(==), V>(acc: seq<(K, V)>, k: K): Option<V>
    decreases |acc|
  {
    if |acc| == 0 then None
    else if acc[0].0 == k then Some(acc[0].1)
    else Lookup(acc[1..], k)
  }

  /** Some pair of `xs` has key `k`. */
  predicate KeyIn<K(==), V>(xs: seq<(K, V)>, k: K) {
    exists i :: 0 <= i < |xs| && xs[i].0 == k
  }

  lemma KeyInAppend<K, V>(a: seq<(K, V)>, b: seq<(K, V)>, k: K)
    ensures KeyIn(a + b, k) <==> KeyIn(a, k) || KeyIn(b, k)
  {
    if KeyIn(a + b, k) {
      var i :| 0 <= i < |a + b| && (a + b)[i].0 == k;
      if i >= |a| {
        assert b[i - |a|].0 == k;
      }
    }
    if KeyIn(a, k) {
      var i :| 0 <= i < |a| && a[i].0 == k;
      assert (a + b)[i].0 == k;
    }
    if KeyIn(b, k) {
      var i :| 0 <= i < |b| && b[i].0 == k;
      assert (a + b)[|a| + i].0 == k;
    }
  }

  predicate DistinctKeys<K(==), V>(acc: seq<(K, V)>) {
    forall i, j :: 0 <= i < j < |acc| ==> acc[i].0 != acc[j].0
  }

  /** With distinct keys no entry occurs twice. */
  lemma {:induction false} DistinctKeysOnce<K, V>(g: seq<(K, V)>, e: (K, V))
    requires DistinctKeys(g)
    ensures multiset(g)[e] <= 1
    decreases |g|
  {
    if |g| > 0 {
      var t := g[1..];
      assert g == [g[0]] + t;
      DistinctKeysOnce(t, e);
      if e == g[0] {
        forall j | 0 <= j < |t|
          ensures t[j] != e
        {
          assert t[j] == g[j + 1];
        }
      }
    }
  }

  /** Entries drawn from a grouping, each at most as often as there, keep distinct keys. */
  lemma DistinctKeysSub<K, V>(g: seq<(K, V)>, r: seq<(K, V)>)
    requires DistinctKeys(g) && multiset(r) <= multiset(g)
    ensures DistinctKeys(r)
  {
    forall i, j | 0 <= i < j < |r|
      ensures r[i].0 != r[j].0
    {
      if r[i] == r[j] {
        assert r == r[..j] + r[j..];
        assert r[..j][i] == r[i] && r[j..][0] == r[j];
        assert multiset(r)[r[i]] >= 2;
        DistinctKeysOnce(g, r[i]);
      } else {
        assert r[i] in multiset(g) && r[j] in multiset(g);
        var a :| 0 <= a < |g| && g[a] == r[i];
        var b :| 0 <= b < |g| && g[b] == r[j];
      }
    }
  }

  /** `m.set(k, m.has(k) ? combine(m.get(k), v) : v)`. */
  function Upsert<K(==), V>(acc: seq<(K, V)>, k: K, v: V, combine: (V, V) -> V): (r: seq<(K, V)>)
    ensures |r| == |acc| || |r| == |acc| + 1
    ensures forall i :: 0 <= i < |acc| ==> r[i].0 == acc[i].0
    ensures |r| == |acc| + 1 ==> r[|acc|].0 == k
    decreases |acc|
  {
    if |acc| == 0 then [(k, v)]
    else if acc[0].0 == k then [(k, combine(acc[0].1, v))] + acc[1..]
    else [acc[0]] + Upsert(acc[1..], k, v, combine)
  }

  /** Folds `xs` from the front, upserting each pair. */
  function GroupBy<K(==), V>(xs: seq<(K, V)>, combine: (V, V) -> V): seq<(K, V)>
    decreases |xs|
  {
    if |xs| == 0 then []
    else
      var last := xs[|xs| - 1];
      Upsert(GroupBy(xs[..|xs| - 1], combine), last.0, last.1, combine)
  }

  /**
   * Reference definition, one key at a time: the values paired with `k`, in
   * order, folded with `combine`; absent when `k` never occurs.
   */
  function FoldKey<K(==), V>(xs: seq<(K, V)>, k: K, combine: (V, V) -> V): Option<V>
    decreases |xs|
  {
    if |xs| == 0 then None
    else
      var prev := FoldKey(xs[..|xs| - 1], k, combine);
      var last := xs[|xs| - 1];
      if last.0 != k then prev
      else if prev.None? then Some(last.1)
      else Some(combine(prev.value, last.1))
  }

  /** A key has a folded value exactly when it occurs in the input. */
  lemma {:induction false} FoldKeyPresent<K, V>(xs: seq<(K, V)>, k: K, combine: (V, V) -> V)
    ensures FoldKey(xs, k, combine).Some? <==> KeyIn(xs, k)
    decreases |xs|
  {
    if |xs| > 0 {
      var p := xs[..|xs| - 1];
      FoldKeyPresent(p, k, combine);
      if KeyIn(p, k) {
        var i :| 0 <= i < |p| && p[i].0 == k;
        assert xs[i].0 == k;
      }
      if KeyIn(xs, k) {
        var i :| 0 <= i < |xs| && xs[i].0 == k;
        if i < |p| {
          assert p[i].0 == k;
        }
      }
    }
  }

  lemma {:induction false} UpsertLookup<K, V>(acc: seq<(K, V)>, k: K, v: V, combine: (V, V) -> V, q: K)
    ensures Lookup(Upsert(acc, k, v, combine), q) ==
      if q != k then Lookup(acc, q)
      else if Lookup(acc, k).None? then Some(v)
      else Some(combine(Lookup(acc, k).value, v))
    decreases |acc|
  {
    if |acc| > 0 && acc[0].0 != k {
      UpsertLookup(acc[1..], k, v, combine, q);
    }
  }

  lemma {:induction false} LookupAbsent<K, V>(acc: seq<(K, V)>, k: K)
    ensures Lookup(acc, k).None? <==> !KeyIn(acc, k)
    decreases |acc|
  {
    if |acc| > 0 {
      LookupAbsent(acc[1..], k);
      assert forall i :: 1 <= i < |acc| ==> acc[i] == acc[1..][i - 1];
    }
  }

  lemma {:induction false} UpsertDistinct<K, V>(acc: seq<(K, V)>, k: K, v: V, combine: (V, V) -> V)
    requires DistinctKeys(acc)
    ensures DistinctKeys(Upsert(acc, k, v, combine))
  {
    var r := Upsert(acc, k, v, combine);
    if |r| == |acc| + 1 {
      UpsertAppends(acc, k, v, combine);
    }
  }

  /** Upsert grows the list only for a key not yet present. */
  lemma {:induction false} UpsertAppends<K, V>(acc: seq<(K, V)>, k: K, v: V, combine: (V, V) -> V)
    ensures |Upsert(acc, k, v, combine)| == |acc| + 1 ==> forall i :: 0 <= i < |acc| ==> acc[i].0 != k
    decreases |acc|
  {
    if |acc| > 0 && acc[0].0 != k {
      UpsertAppends(acc[1..], k, v, combine);
      assert forall i :: 1 <= i < |acc| ==> acc[i] == acc[1..][i - 1];
    }
  }

  /**
   * The grouping has one entry per distinct key, and the entry for each key
   * holds exactly the fold of that key's values.
   */
  lemma {:induction false} GroupByCorrect<K, V>(xs: seq<(K, V)>, combine: (V, V) -> V)
    ensures DistinctKeys(GroupBy(xs, combine))
    ensures forall k :: Lookup(GroupBy(xs, combine), k) == FoldKey(xs, k, combine)
    decreases |xs|
  {
    if |xs| > 0 {
      var p := xs[..|xs| - 1];
      var last := xs[|xs| - 1];
      GroupByCorrect(p, combine);
      UpsertDistinct(GroupBy(p, combine), last.0, last.1, combine);
      forall k
        ensures Lookup(GroupBy(xs, combine), k) == FoldKey(xs, k, combine)
      {
        UpsertLookup(GroupBy(p, combine), last.0, last.1, combine, k);
      }
    }
  }

  /** With distinct keys, each entry is what `Lookup` finds for its key. */
  lemma {:induction false} LookupEntry<K, V>(acc: seq<(K, V)>, i: nat)
    requires DistinctKeys(acc) && i < |acc|
    ensures Lookup(acc, acc[i].0) == Some(acc[i].1)
    decreases i
  {
    if i > 0 {
      LookupEntry(acc[1..], i - 1);
    }
  }

  /** Every entry of the grouping carries the fold of its key's values. */
  lemma GroupByEntries<K, V>(xs: seq<(K, V)>, combine: (V, V) -> V)
    ensures DistinctKeys(GroupBy(xs, combine))
    ensures forall i :: 0 <= i < |GroupBy(xs, combine)| ==>
      FoldKey(xs, GroupBy(xs, combine)[i].0, combine) == Some(GroupBy(xs, combine)[i].1)
    ensures forall k :: KeyIn(xs, k) <==> KeyIn(GroupBy(xs, combine), k)
  {
    var g := GroupBy(xs, combine);
    GroupByCorrect(xs, combine);
    forall i | 0 <= i < |g|
      ensures FoldKey(xs, g[i].0, combine) == Some(g[i].1)
    {
      LookupEntry(g, i);
      assert Lookup(g, g[i].0) == FoldKey(xs, g[i].0, combine);
    }
    forall k
      ensures KeyIn(xs, k) <==> KeyIn(g, k)
    {
      FoldKeyPresent(xs, k, combine);
      LookupAbsent(g, k);
    }
  }

  function PlusReal(a: real, b: real): real { a + b }

  function PlusInt(a: int, b: int): int { a + b }

  /** The amount a pair contributes to key `k`'s total. */
  function AmountFor<K(==)>(k: K): ((K, real)) -> real {
    (p: (K, real)) => if p.0 == k then p.1 else 0.0
  }

  function CountFor<K(==)>(k: K): ((K, int)) -> int {
    (p: (K, int)) => if p.0 == k then p.1 else 0
  }

  /** Summing per key: a present key's value is the sum of the amounts paired with it. */
  lemma {:induction false} FoldKeySum<K>(xs: seq<(K, real)>, k: K)
    ensures FoldKey(xs, k, PlusReal).GetOr(0.0) == SumOf(xs, AmountFor(k))
    decreases |xs|
  {
    if |xs| > 0 {
      FoldKeySum(xs[..|xs| - 1], k);
    }
  }

  lemma {:induction false} FoldKeySumInt<K>(xs: seq<(K, int)>, k: K)
    ensures FoldKey(xs, k, PlusInt).GetOr(0) == SumOfInt(xs, CountFor(k))
    decreases |xs|
  {
    if |xs| > 0 {
      FoldKeySumInt(xs[..|xs| - 1], k);
    }
  }
}
