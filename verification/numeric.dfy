/**
 * Numeric building blocks shared by the descriptor families: an optional
 * value, a float64 that can be +inf or NaN, exact sums over eigenvalue
 * sequences, and NumPy's `log` evaluated under `errstate(divide='raise',
 * invalid='raise')`. Reals are exact; IEEE rounding is not modelled.
 */
module Numeric {

  datatype Option<+T> = None | Some(value: T)

  /** The float64 values the model has to tell apart: a finite number, +inf, or NaN. */
  datatype Float = Finite(value: real) | PosInf | NaN

  function Abs(x: real): real
  {
    if x < 0.0 then -x else x
  }

  /** `sum` accumulated left to right, as a loop over the sequence does. */
  function Sum(s: seq<real>): real
  {
    if s == [] then 0.0 else Sum(s[..|s| - 1]) + s[|s| - 1]
  }

  /** `np.abs(s).sum()` */
  function AbsSum(s: seq<real>): real
  {
    if s == [] then 0.0 else AbsSum(s[..|s| - 1]) + Abs(s[|s| - 1])
  }

  /** `np.abs(s - c).sum()` */
  function AbsDevSum(s: seq<real>, c: real): real
  {
    if s == [] then 0.0 else AbsDevSum(s[..|s| - 1], c) + Abs(s[|s| - 1] - c)
  }

  /** The triangle inequality for sums: the graph energy bounds the first spectral moment. */
  lemma {:induction false} AbsSumBound(s: seq<real>)
    ensures AbsSum(s) >= 0.0
    ensures Abs(Sum(s)) <= AbsSum(s)
  {
    if s != [] {
      AbsSumBound(s[..|s| - 1]);
    }
  }

  lemma {:induction false} AbsDevSumNonNegative(s: seq<real>, c: real)
    ensures AbsDevSum(s, c) >= 0.0
  {
    if s != [] {
      AbsDevSumNonNegative(s[..|s| - 1], c);
    }
  }

  /** A sum of `n` terms each within `[lo, hi]` lies within `[n * lo, n * hi]`. */
  lemma {:induction false} SumWithin(s: seq<real>, lo: real, hi: real)
    requires forall k :: 0 <= k < |s| ==> lo <= s[k] <= hi
    ensures |s| as real * lo <= Sum(s) <= |s| as real * hi
  {
    if s != [] {
      var n := |s| - 1;
      SumWithin(s[..n], lo, hi);
      assert |s| as real * lo == n as real * lo + lo;
      assert |s| as real * hi == n as real * hi + hi;
    }
  }

  /** Dividing bounds `n * lo <= x <= n * hi` by a positive `n`. */
  lemma DivWithin(x: real, n: real, lo: real, hi: real)
    requires n > 0.0 && n * lo <= x <= n * hi
    ensures lo <= x / n <= hi
  {
    var q := x / n;
    assert x == q * n;
    assert (q - lo) * n == x - n * lo;
    assert (hi - q) * n == n * hi - x;
  }

  /** Absolute deviations from a centre inside `[lo, hi]` of `n` terms inside `[lo, hi]` sum to at most `n * (hi - lo)`. */
  lemma {:induction false} AbsDevSumWithin(s: seq<real>, c: real, lo: real, hi: real)
    requires forall k :: 0 <= k < |s| ==> lo <= s[k] <= hi
    requires lo <= c <= hi
    ensures AbsDevSum(s, c) <= |s| as real * (hi - lo)
  {
    if s != [] {
      var n := |s| - 1;
      AbsDevSumWithin(s[..n], c, lo, hi);
      assert Abs(s[n] - c) <= hi - lo;
      assert |s| as real * (hi - lo) == n as real * (hi - lo) + (hi - lo);
    }
  }

  /** `n` terms of absolute value at most `hi` have an absolute sum of at most `n * hi`. */
  lemma {:induction false} AbsSumWithin(s: seq<real>, hi: real)
    requires forall k :: 0 <= k < |s| ==> Abs(s[k]) <= hi
    ensures AbsSum(s) <= |s| as real * hi
  {
    if s != [] {
      var n := |s| - 1;
      AbsSumWithin(s[..n], hi);
      assert |s| as real * hi == n as real * hi + hi;
    }
  }

  /** Largest element, the reference against which argmax is checked. */
  function SeqMax(s: seq<real>): (m: real)
    requires s != []
    ensures forall k :: 0 <= k < |s| ==> s[k] <= m
    ensures exists k :: 0 <= k < |s| && s[k] == m
  {
    if |s| == 1 then s[0]
    else
      var m' := SeqMax(s[..|s| - 1]);
      assert forall k :: 0 <= k < |s| - 1 ==> s[..|s| - 1][k] == s[k];
      if s[|s| - 1] > m' then s[|s| - 1] else m'
  }

  /** Smallest element, the reference against which argmin is checked. */
  function SeqMin(s: seq<real>): (m: real)
    requires s != []
    ensures forall k :: 0 <= k < |s| ==> m <= s[k]
    ensures exists k :: 0 <= k < |s| && s[k] == m
  {
    if |s| == 1 then s[0]
    else
      var m' := SeqMin(s[..|s| - 1]);
      assert forall k :: 0 <= k < |s| - 1 ==> s[..|s| - 1][k] == s[k];
      if s[|s| - 1] < m' then s[|s| - 1] else m'
  }

  /** float64 addition restricted to the values that occur: NaN absorbs, +inf dominates finite values. */
  function AddFloat(x: Float, y: Float): (r: Float)
    ensures r.NaN? <==> x.NaN? || y.NaN?
    ensures r.PosInf? <==> !r.NaN? && (x.PosInf? || y.PosInf?)
    ensures r.Finite? ==> x.Finite? && y.Finite? && r.value == x.value + y.value
  {
    match (x, y)
    case (NaN, _) => NaN
    case (_, NaN) => NaN
    case (PosInf, _) => PosInf
    case (_, PosInf) => PosInf
    case (Finite(a), Finite(b)) => Finite(a + b)
  }

  /** Division by a positive count, the `x / N` of the per-atom indices. */
  function DivCount(x: real, n: nat): (r: real)
    requires n > 0
    ensures x >= 0.0 ==> r >= 0.0
    ensures r * n as real == x
  {
    x / n as real
  }

  /** float64 division by a positive atom count. */
  function DivFloat(x: Float, n: nat): (r: Float)
    requires n > 0
    ensures r.NaN? <==> x.NaN?
    ensures r.PosInf? <==> x.PosInf?
    ensures r.Finite? ==> r.value * (n as real) == x.value
  {
    match x
    case Finite(a) => Finite(DivCount(a, n))
    case other => other
  }
}
