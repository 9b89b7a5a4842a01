/**
 * `Array.prototype.sort` with a comparator, modelled as a stable insertion
 * sort over a "may come before" relation `le` (the comparator returning a
 * value <= 0), followed by the `slice` that keeps the first or last `k`.
 */
module Sorting {
  import opened Seqs

  /** `le` is total and transitive, the condition under which a comparator sorts consistently. */
  ghost predicate TotalPreorder<T(!new)>(le: (T, T) -> bool) {
    && (forall a, b :: le(a, b) || le(b, a))
    && (forall a, b, c :: le(a, b) && le(b, c) ==> le(a, c))
  }

  predicate Sorted<T>(s: seq<T>, le: (T, T) -> bool) {
    forall i, j :: 0 <= i < j < |s| ==> le(s[i], s[j])
  }

  /** Inserts `x` after every leading element that may come before it (keeps equal elements in order). */
  function Insert<T>(x: T, s: seq<T>, le: (T, T) -> bool): (r: seq<T>)
    ensures multiset(r) == multiset(s) + multiset{x}
    decreases |s|
  {
    if |s| == 0 then [x]
    else if le(s[0], x) then
      assert s == [s[0]] + s[1..];
      [s[0]] + Insert(x, s[1..], le)
    else [x] + s
  }

  /** Sorts by inserting each element, from the first to the last, into the sorted prefix. */
  function Sort<T>(s: seq<T>, le: (T, T) -> bool): (r: seq<T>)
    ensures multiset(r) == multiset(s)
    decreases |s|
  {
    if |s| == 0 then []
    else
      assert s == s[..|s| - 1] + [s[|s| - 1]];
      Insert(s[|s| - 1], Sort(s[..|s| - 1], le), le)
  }

  lemma {:induction false} InsertSorted<T(!new)>(x: T, s: seq<T>, le: (T, T) -> bool)
    requires TotalPreorder(le) && Sorted(s, le)
    ensures Sorted(Insert(x, s, le), le)
    decreases |s|
  {
    if |s| > 0 {
      if le(s[0], x) {
        var t := s[1..];
        InsertSorted(x, t, le);
        var rest := Insert(x, t, le);
        forall j | 0 <= j < |rest|
          ensures le(s[0], rest[j])
        {
          assert rest[j] in multiset(rest);
          assert rest[j] in multiset(t) || rest[j] == x;
          if rest[j] != x {
            var k :| 0 <= k < |t| && t[k] == rest[j];
            assert s[k + 1] == rest[j];
          }
        }
      } else {
        assert le(x, s[0]);
      }
    }
  }

  /** Under a total preorder the sort's output is ordered. */
  lemma {:induction false} SortSorted<T(!new)>(s: seq<T>, le: (T, T) -> bool)
    requires TotalPreorder(le)
    ensures Sorted(Sort(s, le), le)
    decreases |s|
  {
    if |s| > 0 {
      SortSorted(s[..|s| - 1], le);
      InsertSorted(s[|s| - 1], Sort(s[..|s| - 1], le), le);
    }
  }

  /** In an ordered sequence every element before a cut may come before every element after it. */
  lemma SortedSplit<T>(t: seq<T>, n: nat, le: (T, T) -> bool)
    requires Sorted(t, le) && n <= |t|
    ensures forall x, y :: x in t[..n] && y in t[n..] ==> le(x, y)
  {
    forall x, y | x in t[..n] && y in t[n..]
      ensures le(x, y)
    {
      var j :| 0 <= j < n && t[..n][j] == x;
      var i :| 0 <= i < |t| - n && t[n..][i] == y;
      assert t[j] == x && t[n + i] == y;
    }
  }

  /** An element of an ordered sequence absent from its first `n` places may come after each of them. */
  lemma CutBeforeOutsider<T>(t: seq<T>, n: nat, e: T, le: (T, T) -> bool)
    requires Sorted(t, le) && n <= |t| && e in t && e !in t[..n]
    ensures forall k :: 0 <= k < n ==> le(t[k], e)
  {
    forall k | 0 <= k < n
      ensures t[k] != e
    {
      assert t[..n][k] == t[k];
    }
    var j :| 0 <= j < |t| && t[j] == e;
  }

  /**
   * `sort(le).slice(0, k)`: an ordered selection of at most `k` of the input
   * elements, and every element left out may come after every element kept.
   */
  lemma SmallestFirst<T(!new)>(s: seq<T>, le: (T, T) -> bool, k: nat)
    requires TotalPreorder(le)
    ensures var r := TakeFirst(Sort(s, le), k);
      && Sorted(r, le)
      && |r| == (if |s| < k then |s| else k)
      && multiset(r) <= multiset(s)
      && forall x, y :: x in multiset(s) - multiset(r) && y in r ==> le(y, x)
  {
    var t := Sort(s, le);
    SortSorted(s, le);
    var r := TakeFirst(t, k);
    var rest := t[|r|..];
    assert t == r + rest;
    assert multiset(s) - multiset(r) == multiset(rest);
    SortedSplit(t, |r|, le);
  }

  /**
   * `sort(le).slice(-k)`: an ordered selection of at most `k` of the input
   * elements, and every element left out may come before every element kept.
   */
  lemma LargestLast<T(!new)>(s: seq<T>, le: (T, T) -> bool, k: nat)
    requires TotalPreorder(le)
    ensures var r := TakeLast(Sort(s, le), k);
      && Sorted(r, le)
      && |r| == (if |s| < k then |s| else k)
      && multiset(r) <= multiset(s)
      && forall x, y :: x in multiset(s) - multiset(r) && y in r ==> le(x, y)
  {
    var t := Sort(s, le);
    SortSorted(s, le);
    var r := TakeLast(t, k);
    var front := t[..|t| - |r|];
    assert t == front + r;
    assert multiset(s) - multiset(r) == multiset(front);
    SortedSplit(t, |front|, le);
  }
}
