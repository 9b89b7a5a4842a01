/**
 * The array operations the source uses on its collections: `filter`, `find`,
 * `reduce` into a sum, `slice(0, k)` and `slice(-k)`.
 */
module Seqs {
  import opened Wrappers

  /** `r` reads off `s` at the strictly increasing positions `idx`. */
  ghost predicate PicksAt<T>(r: seq<T>, s: seq<T>, idx: seq<nat>) {
    && |idx| == |r|
    && (forall i :: 0 <= i < |idx| ==> idx[i] < |s| && r[i] == s[idx[i]])
    && (forall i, j :: 0 <= i < j < |idx| ==> idx[i] < idx[j])
  }

  /** `r` is `s` with some elements left out and the others in their order. */
  ghost predicate SubsequenceOf<T>(r: seq<T>, s: seq<T>) {
    exists idx :: PicksAt(r, s, idx)
  }

  /**
   * Every element of `r` passes `f`, and each element of `s` that passes
   * occurs in `r` exactly as often as in `s`.
   */
  ghost predicate KeepsCounts<T>(r: seq<T>, s: seq<T>, f: T -> bool) {
    && (forall i :: 0 <= i < |r| ==> f(r[i]))
    && (forall i :: 0 <= i < |s| && f(s[i]) ==> multiset(r)[s[i]] == multiset(s)[s[i]])
  }

  /**
   * `s.filter(f)`: the elements satisfying `f`. `KeepKeepsOrderAndCounts`
   * adds that they stay in their original order, each as often as it occurs,
   * and `KeepCharacterised` that these two facts fix the result.
   */
  function Keep<T>(s: seq<T>, f: T -> bool): (r: seq<T>)
    ensures |r| <= |s|
    ensures forall i :: 0 <= i < |r| ==> r[i] in s && f(r[i])
    ensures forall i :: 0 <= i < |s| && f(s[i]) ==> s[i] in r
    decreases |s|
  {
    if |s| == 0 then []
    else if f(s[0]) then [s[0]] + Keep(s[1..], f)
    else Keep(s[1..], f)
  }

  /** The filter is a subsequence holding every passing element as often as `s` does. */
  lemma {:induction false} KeepKeepsOrderAndCounts<T>(s: seq<T>, f: T -> bool)
    ensures SubsequenceOf(Keep(s, f), s)
    ensures KeepsCounts(Keep(s, f), s, f)
    decreases |s|
  {
    if |s| == 0 {
      assert PicksAt([], s, []);
    } else {
      var rest := Keep(s[1..], f);
      KeepKeepsOrderAndCounts(s[1..], f);
      CountsCons(rest, s, f);
      if f(s[0]) {
        SubsequenceCons(rest, s);
      } else {
        SubsequenceSkip(rest, s);
      }
    }
  }

  /** Counted element by element: the filter holds each passing value as often as `s`, and no other. */
  lemma KeepMultiset<T>(s: seq<T>, f: T -> bool)
    ensures forall x :: multiset(Keep(s, f))[x] == if f(x) then multiset(s)[x] else 0
  {
    KeepKeepsOrderAndCounts(s, f);
    var r := Keep(s, f);
    forall x
      ensures multiset(r)[x] == if f(x) then multiset(s)[x] else 0
    {
      if x in s && f(x) {
        var i :| 0 <= i < |s| && s[i] == x;
      } else {
        assert x !in r;
      }
    }
  }

  /** The counts of the filtered tail extend to the whole sequence. */
  lemma CountsCons<T>(rest: seq<T>, s: seq<T>, f: T -> bool)
    requires |s| > 0 && KeepsCounts(rest, s[1..], f)
    requires forall i :: 0 <= i < |rest| ==> rest[i] in s[1..]
    ensures f(s[0]) ==> KeepsCounts([s[0]] + rest, s, f)
    ensures !f(s[0]) ==> KeepsCounts(rest, s, f)
  {
    var t := s[1..];
    assert s == [s[0]] + t;
    forall i | 0 <= i < |s| && f(s[i])
      ensures multiset(rest)[s[i]] == multiset(t)[s[i]]
    {
      if i > 0 {
        assert s[i] == t[i - 1];
      } else if s[0] !in t {
        assert s[0] !in rest;
      } else {
        var j :| 0 <= j < |t| && t[j] == s[0];
      }
    }
  }

  /** A subsequence of the tail, with the head in front, is a subsequence. */
  lemma SubsequenceCons<T>(r: seq<T>, s: seq<T>)
    requires |s| > 0 && SubsequenceOf(r, s[1..])
    ensures SubsequenceOf([s[0]] + r, s)
  {
    var idx :| PicksAt(r, s[1..], idx);
    var idx' := [0] + seq(|idx|, i requires 0 <= i < |idx| => idx[i] + 1);
    assert PicksAt([s[0]] + r, s, idx');
  }

  /** A subsequence of the tail is a subsequence. */
  lemma SubsequenceSkip<T>(r: seq<T>, s: seq<T>)
    requires |s| > 0 && SubsequenceOf(r, s[1..])
    ensures SubsequenceOf(r, s)
  {
    var idx :| PicksAt(r, s[1..], idx);
    var idx' := seq(|idx|, i requires 0 <= i < |idx| => idx[i] + 1);
    assert PicksAt(r, s, idx');
  }

  /** A subsequence holds no element more often than the sequence. */
  lemma {:induction false} PicksAtMultiset<T>(r: seq<T>, s: seq<T>, idx: seq<nat>)
    requires PicksAt(r, s, idx)
    ensures multiset(r) <= multiset(s)
    decreases |r|
  {
    if |r| > 0 {
      var n := |r| - 1;
      var k := idx[n];
      PicksAtMultiset(r[..n], s[..k], idx[..n]);
      assert r == r[..n] + [s[k]];
      assert s[..k + 1] == s[..k] + [s[k]];
      assert s == s[..k + 1] + s[k + 1..];
    }
  }

  /** Positions after the first all lie in the tail. */
  lemma PicksTail<T>(r: seq<T>, s: seq<T>, idx: seq<nat>)
    requires |s| > 0 && PicksAt(r, s, idx)
    requires |idx| > 0 ==> idx[0] > 0
    ensures PicksAt(r, s[1..], seq(|idx|, i requires 0 <= i < |idx| => idx[i] - 1))
  {
  }

  /** When `r` starts at the head of `s`, the head passes and the rest of `r` fits the tail. */
  lemma CharacterisedHead<T>(s: seq<T>, f: T -> bool, r: seq<T>, idx: seq<nat>)
    requires |s| > 0 && |r| > 0 && PicksAt(r, s, idx) && idx[0] == 0
    requires KeepsCounts(r, s, f)
    ensures f(s[0]) && r == [s[0]] + r[1..]
    ensures SubsequenceOf(r[1..], s[1..]) && KeepsCounts(r[1..], s[1..], f)
  {
    var x, t := s[0], s[1..];
    assert s == [x] + t;
    assert r == [x] + r[1..];
    var tail := seq(|idx| - 1, i requires 0 <= i < |idx| - 1 => idx[i + 1] - 1);
    assert PicksAt(r[1..], t, tail);
    forall i | 0 <= i < |t| && f(t[i])
      ensures multiset(r[1..])[t[i]] == multiset(t)[t[i]]
    {
      assert t[i] == s[i + 1];
    }
  }

  /** When `r` skips the head of `s`, the head fails and `r` fits the tail. */
  lemma CharacterisedSkip<T>(s: seq<T>, f: T -> bool, r: seq<T>, idx: seq<nat>)
    requires |s| > 0 && PicksAt(r, s, idx) && (|r| > 0 ==> idx[0] > 0)
    requires KeepsCounts(r, s, f)
    ensures !f(s[0])
    ensures SubsequenceOf(r, s[1..]) && KeepsCounts(r, s[1..], f)
  {
    var x, t := s[0], s[1..];
    assert s == [x] + t;
    assert multiset(s)[x] == multiset(t)[x] + 1;
    var tail := seq(|idx|, i requires 0 <= i < |idx| => idx[i] - 1);
    PicksTail(r, s, idx);
    PicksAtMultiset(r, t, tail);
    assert !f(x);
    forall i | 0 <= i < |t| && f(t[i])
      ensures multiset(r)[t[i]] == multiset(t)[t[i]]
    {
      assert t[i] == s[i + 1];
    }
  }

  /**
   * The filter is the only subsequence with those counts: any `r` that keeps
   * the order of `s` and holds each passing element as often as `s` does, and
   * no other element, is `Keep(s, f)`.
   */
  lemma {:induction false} KeepCharacterised<T>(s: seq<T>, f: T -> bool, r: seq<T>)
    requires SubsequenceOf(r, s) && KeepsCounts(r, s, f)
    ensures r == Keep(s, f)
    decreases |s|
  {
    var idx :| PicksAt(r, s, idx);
    if |s| == 0 {
      PicksAtMultiset(r, s, idx);
      assert |multiset(r)| == 0;
    } else if |r| > 0 && idx[0] == 0 {
      CharacterisedHead(s, f, r, idx);
      KeepCharacterised(s[1..], f, r[1..]);
    } else {
      CharacterisedSkip(s, f, r, idx);
      KeepCharacterised(s[1..], f, r);
    }
  }

  /** Filtering distributes over concatenation, so the kept elements keep their relative order. */
  lemma {:induction false} KeepAppend<T>(a: seq<T>, b: seq<T>, f: T -> bool)
    ensures Keep(a + b, f) == Keep(a, f) + Keep(b, f)
    decreases |a|
  {
    if |a| > 0 {
      assert (a + b)[1..] == a[1..] + b;
      KeepAppend(a[1..], b, f);
    } else {
      assert a + b == b;
    }
  }

  /** Filtering keeps everything when every element passes. */
  lemma {:induction false} KeepAll<T>(s: seq<T>, f: T -> bool)
    requires forall i :: 0 <= i < |s| ==> f(s[i])
    ensures Keep(s, f) == s
    decreases |s|
  {
    if |s| > 0 {
      KeepAll(s[1..], f);
    }
  }

  /** Filters that agree on every element keep the same elements. */
  lemma {:induction false} KeepAgree<T>(s: seq<T>, f: T -> bool, g: T -> bool)
    requires forall i :: 0 <= i < |s| ==> f(s[i]) == g(s[i])
    ensures Keep(s, f) == Keep(s, g)
    decreases |s|
  {
    if |s| > 0 {
      KeepAgree(s[1..], f, g);
    }
  }

  /** Every element has `g`. */
  predicate AllOf<T>(s: seq<T>, g: T -> bool) {
    forall i :: 0 <= i < |s| ==> g(s[i])
  }

  /** Every element satisfying `f` has `g`. */
  predicate AllWhere<T>(s: seq<T>, f: T -> bool, g: T -> bool) {
    forall i :: 0 <= i < |s| && f(s[i]) ==> g(s[i])
  }

  /** Every kept element has `g` exactly when every element satisfying `f` has it. */
  lemma KeepForall<T>(s: seq<T>, f: T -> bool, g: T -> bool)
    ensures AllOf(Keep(s, f), g) <==> AllWhere(s, f, g)
  {
    if AllWhere(s, f, g) {
      KeptHave(s, f, g);
    }
    if AllOf(Keep(s, f), g) {
      PassingHave(s, f, g);
    }
  }

  lemma KeptHave<T>(s: seq<T>, f: T -> bool, g: T -> bool)
    requires AllWhere(s, f, g)
    ensures AllOf(Keep(s, f), g)
  {
    var r := Keep(s, f);
    forall i | 0 <= i < |r|
      ensures g(r[i])
    {
      var j :| 0 <= j < |s| && s[j] == r[i];
      assert f(s[j]);
    }
  }

  lemma PassingHave<T>(s: seq<T>, f: T -> bool, g: T -> bool)
    requires AllOf(Keep(s, f), g)
    ensures AllWhere(s, f, g)
  {
    var r := Keep(s, f);
    forall i | 0 <= i < |s| && f(s[i])
      ensures g(s[i])
    {
      var j :| 0 <= j < |r| && r[j] == s[i];
      assert g(r[j]);
    }
  }

  /** `s.filter(f).length`. */
  function Count<T>(s: seq<T>, f: T -> bool): nat {
    |Keep(s, f)|
  }

  /** The positions of `s` whose element passes `f`. */
  ghost function Positions<T>(s: seq<T>, f: T -> bool): set<int> {
    set i | 0 <= i < |s| && f(s[i])
  }

  /** `Count` is the number of positions whose element passes. */
  lemma {:induction false} CountPositions<T>(s: seq<T>, f: T -> bool)
    ensures Count(s, f) == |Positions(s, f)|
    decreases |s|
  {
    if |s| == 0 {
      assert Positions(s, f) == {};
    } else {
      var n := |s| - 1;
      var p := s[..n];
      CountPositions(p, f);
      assert s == p + [s[n]];
      CountAppend(p, [s[n]], f);
      assert n !in Positions(p, f);
      if f(s[n]) {
        assert Positions(s, f) == Positions(p, f) + {n};
      } else {
        assert Positions(s, f) == Positions(p, f);
      }
    }
  }

  /** Counting distributes over concatenation. */
  lemma CountAppend<T>(a: seq<T>, b: seq<T>, f: T -> bool)
    ensures Count(a + b, f) == Count(a, f) + Count(b, f)
  {
    KeepAppend(a, b, f);
  }

  /** `s.find(f)`: the first element satisfying `f`, or `undefined`. */
  function Find<T>(s: seq<T>, f: T -> bool): (r: Option<T>)
    ensures r.None? <==> forall i :: 0 <= i < |s| ==> !f(s[i])
    ensures r.Some? ==> exists i :: (0 <= i < |s| && s[i] == r.value && f(s[i]) &&
                                     forall j :: 0 <= j < i ==> !f(s[j]))
    decreases |s|
  {
    if |s| == 0 then None
    else if f(s[0]) then Some(s[0])
    else
      var r := Find(s[1..], f);
      assert r.Some? ==> exists i :: (1 <= i < |s| && s[i] == r.value && f(s[i]) &&
                                      forall j :: 0 <= j < i ==> !f(s[j])) by {
        if r.Some? {
          var i :| 0 <= i < |s| - 1 && s[1..][i] == r.value && f(s[1..][i]) &&
            forall j :: 0 <= j < i ==> !f(s[1..][j]);
          assert s[i + 1] == r.value;
        }
      }
      r
  }

  /** When every element that satisfies `f` is the same value, `find` returns it. */
  lemma FindUnique<T>(s: seq<T>, f: T -> bool, k: nat)
    requires k < |s| && f(s[k])
    requires forall i :: 0 <= i < |s| && f(s[i]) ==> i == k
    ensures Find(s, f) == Some(s[k])
  {
  }

  /** `s.reduce((sum, x) => sum + f(x), 0)` over reals, folding from the front. */
  function SumOf<T>(s: seq<T>, f: T -> real): real
    decreases |s|
  {
    if |s| == 0 then 0.0 else SumOf(s[..|s| - 1], f) + f(s[|s| - 1])
  }

  /** The same fold over integers. */
  function SumOfInt<T>(s: seq<T>, f: T -> int): int
    decreases |s|
  {
    if |s| == 0 then 0 else SumOfInt(s[..|s| - 1], f) + f(s[|s| - 1])
  }

  lemma {:induction false} SumOfAppend<T>(a: seq<T>, b: seq<T>, f: T -> real)
    ensures SumOf(a + b, f) == SumOf(a, f) + SumOf(b, f)
    decreases |b|
  {
    if |b| == 0 {
      assert a + b == a;
    } else {
      assert (a + b)[..|a + b| - 1] == a + b[..|b| - 1];
      SumOfAppend(a, b[..|b| - 1], f);
    }
  }

  lemma {:induction false} SumOfIntAppend<T>(a: seq<T>, b: seq<T>, f: T -> int)
    ensures SumOfInt(a + b, f) == SumOfInt(a, f) + SumOfInt(b, f)
    decreases |b|
  {
    if |b| == 0 {
      assert a + b == a;
    } else {
      assert (a + b)[..|a + b| - 1] == a + b[..|b| - 1];
      SumOfIntAppend(a, b[..|b| - 1], f);
    }
  }

  /** A sum of non-negative terms is non-negative. */
  lemma {:induction false} SumOfIntNonNegative<T>(s: seq<T>, f: T -> int)
    requires forall i :: 0 <= i < |s| ==> f(s[i]) >= 0
    ensures SumOfInt(s, f) >= 0
    decreases |s|
  {
    if |s| > 0 {
      SumOfIntNonNegative(s[..|s| - 1], f);
    }
  }

  /** A sum of zero terms is zero. */
  lemma {:induction false} SumOfIntZero<T>(s: seq<T>, f: T -> int)
    requires forall i :: 0 <= i < |s| ==> f(s[i]) == 0
    ensures SumOfInt(s, f) == 0
    decreases |s|
  {
    if |s| > 0 {
      SumOfIntZero(s[..|s| - 1], f);
    }
  }

  /** A sum of zero terms is zero, over reals. */
  lemma {:induction false} SumOfZero<T>(s: seq<T>, f: T -> real)
    requires forall i :: 0 <= i < |s| ==> f(s[i]) == 0.0
    ensures SumOf(s, f) == 0.0
    decreases |s|
  {
    if |s| > 0 {
      SumOfZero(s[..|s| - 1], f);
    }
  }

  /** A sequence is its first element followed by the rest. */
  lemma HeadThenRest<T>(a: seq<T>, b: seq<T>)
    requires |a| == |b| + 1 && a[1..] == b
    ensures a == [a[0]] + b
  {
  }

  /** `x => f(x) ? g(x) : 0`. */
  function Masked<T>(f: T -> bool, g: T -> int): T -> int {
    (x: T) => if f(x) then g(x) else 0
  }

  /** Summing the kept elements is summing every element with the others counted as 0. */
  lemma {:induction false} SumOfIntKeep<T>(s: seq<T>, f: T -> bool, g: T -> int)
    ensures SumOfInt(Keep(s, f), g) == SumOfInt(s, Masked(f, g))
    decreases |s|
  {
    if |s| > 0 {
      SumOfIntKeep(s[1..], f, g);
      assert s == [s[0]] + s[1..];
      SumOfIntAppend([s[0]], s[1..], Masked(f, g));
      if f(s[0]) {
        SumOfIntAppend([s[0]], Keep(s[1..], f), g);
      }
    }
  }

  /** `s.slice(0, k)`: at most the first `k` elements. */
  function TakeFirst<T>(s: seq<T>, k: nat): (r: seq<T>)
    ensures |r| == if |s| < k then |s| else k
    ensures r == s[..|r|]
  {
    if |s| <= k then s else s[..k]
  }

  /** `s.slice(-k)` for `k > 0`: at most the last `k` elements. */
  function TakeLast<T>(s: seq<T>, k: nat): (r: seq<T>)
    ensures |r| == if |s| < k then |s| else k
    ensures r == s[|s| - |r|..]
  {
    if |s| <= k then s else s[|s| - k..]
  }
}
