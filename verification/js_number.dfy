/**
 * The part of JavaScript number semantics the ledger depends on: a sum that
 * reads an absent (`undefined`) field becomes NaN, and NaN absorbs every later
 * addition. Finite values are exact reals; IEEE-754 rounding is not modelled.
 */
module JsNumber {
  import opened Wrappers

  datatype Num = Fin(v: real) | NaN

  /** `a + b` on numbers. */
  function Add(a: Num, b: Num): (r: Num)
    ensures r.Fin? <==> a.Fin? && b.Fin?
    ensures r.Fin? ==> r.v == a.v + b.v
  {
    if a.Fin? && b.Fin? then Fin(a.v + b.v) else NaN
  }

  /** Reading an optional numeric field inside arithmetic: `undefined` behaves as NaN. */
  function OfField(o: Option<real>): (r: Num)
    ensures r.Fin? <==> o.Some?
    ensures o.Some? ==> r == Fin(o.value)
  {
    match o
    case Some(x) => Fin(x)
    case None => NaN
  }

  /** `x || 0`: NaN and 0 are falsy, so both come back as 0. */
  function OrZero(a: Num): (r: Num)
    ensures r.Fin?
    ensures a.Fin? ==> r == a
    ensures a.NaN? ==> r == Fin(0.0)
  {
    if a.NaN? then Fin(0.0) else a
  }

  /** `a / n` for a positive count `n`. */
  function DivCount(a: Num, n: nat): (r: Num)
    requires n > 0
    ensures r.Fin? <==> a.Fin?
    ensures r.Fin? ==> r.v * (n as real) == a.v
  {
    if a.Fin? then Fin(a.v / (n as real)) else NaN
  }

  /**
   * `xs.reduce((sum, x) => sum + f(x), 0)` where `f` reads an optional field:
   * the left fold of `reduce`, one element at a time from the front.
   */
  function SumField<T>(xs: seq<T>, f: T -> Option<real>): (r: Num)
    decreases |xs|
  {
    if |xs| == 0 then Fin(0.0)
    else Add(SumField(xs[..|xs| - 1], f), OfField(f(xs[|xs| - 1])))
  }

  /** The same fold when every field is present, over plain reals. */
  function SumPresent<T>(xs: seq<T>, f: T -> Option<real>): real
    decreases |xs|
  {
    if |xs| == 0 then 0.0
    else SumPresent(xs[..|xs| - 1], f) + f(xs[|xs| - 1]).GetOr(0.0)
  }

  /** Summing with one more element in front adds its value. */
  lemma {:induction false} SumPresentCons<T>(x: T, xs: seq<T>, f: T -> Option<real>)
    ensures SumPresent([x] + xs, f) == f(x).GetOr(0.0) + SumPresent(xs, f)
    decreases |xs|
  {
    if |xs| > 0 {
      assert ([x] + xs)[..|xs|] == [x] + xs[..|xs| - 1];
      SumPresentCons(x, xs[..|xs| - 1], f);
    } else {
      assert ([x] + xs)[..0] == [];
    }
  }

  /**
   * The fold is finite exactly when no element lacks the field, and then it
   * is the ordinary sum of the present values.
   */
  lemma {:induction false} SumFieldFinite<T>(xs: seq<T>, f: T -> Option<real>)
    ensures SumField(xs, f).Fin? <==> forall i :: 0 <= i < |xs| ==> f(xs[i]).Some?
    ensures SumField(xs, f).Fin? ==> SumField(xs, f).v == SumPresent(xs, f)
    decreases |xs|
  {
    if |xs| > 0 {
      var p := xs[..|xs| - 1];
      SumFieldFinite(p, f);
      assert forall i :: 0 <= i < |p| ==> p[i] == xs[i];
    }
  }

  /** One absent field anywhere makes the whole sum NaN. */
  lemma SumFieldAbsent<T>(xs: seq<T>, f: T -> Option<real>, k: nat)
    requires k < |xs| && f(xs[k]).None?
    ensures SumField(xs, f) == NaN
  {
    SumFieldFinite(xs, f);
  }
}
