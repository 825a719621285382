/**
 * The spectral family of mordred/_matrix_attributes.py: the `Eigen`
 * descriptor and the indices computed from one eigen-decomposition, their
 * dependency declarations, their names, and the `method` registry.
 *
 * `np.linalg.eig` (real parts kept), `log`, `exp` and `x ** -0.5` are
 * function-valued parameters: the model fixes how their results are used,
 * not what they compute.
 */
module Spectral {
  import opened Numeric
  import opened Descriptors
  import Molecules

  type Matrix = seq<seq<real>>

  // ---------------------------------------------------------------------
  // Common: parameters, dependencies, names
  // ---------------------------------------------------------------------

  /** A spectral descriptor: `Common(matrix, explicit_hydrogens, kekulize)`, whose `parameters()` is that triple. */
  predicate IsCommon(d: Desc)
  {
    d.kind.Spectral? && |d.params| == 3
  }

  /** The descriptor `cls(*self._key_args)`: the same triple under another class. */
  function WithClass(d: Desc, c: SpectralClass): (r: Desc)
    requires IsCommon(d)
    ensures IsCommon(r) && r.params == d.params && r.kind == Spectral(c)
  {
    Desc(Spectral(c), d.params)
  }

  /** `dependencies()` of each class of the family. */
  function Dependencies(d: Desc): map<string, Dep>
    requires IsCommon(d)
  {
    match d.kind.cls
    case Eigen => map["matrix" := if d.params[0].Sub? then On(d.params[0].d) else Raw(d.params[0])]
    case SpDiam => map["SpMax" := On(WithClass(d, SpMax)), "eig" := On(WithClass(d, Eigen))]
    case SpAD => map["SpMean" := On(WithClass(d, SpMean)), "eig" := On(WithClass(d, Eigen))]
    case SpMAD => map["SpAD" := On(WithClass(d, SpAD))]
    case VE2 => map["VE1" := On(WithClass(d, VE1))]
    case VE3 => map["VE1" := On(WithClass(d, VE1))]
    case VR2 => map["VR1" := On(WithClass(d, VR1))]
    case VR3 => map["VR1" := On(WithClass(d, VR1))]
    case _ => map["eig" := On(WithClass(d, Eigen))]
  }

  /** How far a class sits above `Eigen` in the dependency graph. */
  function Level(c: SpectralClass): nat
  {
    match c
    case Eigen => 0
    case SpDiam => 2
    case SpAD => 2
    case SpMAD => 3
    case VE2 => 2
    case VE3 => 2
    case VR2 => 2
    case VR3 => 2
    case _ => 1
  }

  /**
   * The descriptors inside the family that `d` names as dependencies (the
   * matrix `Eigen` depends on is outside it). Each has the same triple as `d`
   * and sits lower in the graph.
   */
  function FamilyDeps(d: Desc): (r: set<Desc>)
    requires IsCommon(d)
    ensures forall e :: e in r ==> IsCommon(e) && e.params == d.params && Level(e.kind.cls) < Level(d.kind.cls)
  {
    if d.kind.cls == Eigen then {}
    else
      var deps := Dependencies(d);
      set k | k in deps && deps[k].On? :: deps[k].d
  }

  /** Everything evaluating `d` evaluates inside the family, `d` included. */
  function Closure(d: Desc): set<Desc>
    requires IsCommon(d)
    decreases Level(d.kind.cls)
  {
    {d} + set e, x | e in FamilyDeps(d) && x in Closure(e) :: x
  }

  /**
   * Every descriptor evaluated for `d` carries `d`'s triple, and the only
   * `Eigen` among them is `Eigen(*d._key_args)`, which is always among them.
   */
  lemma {:induction false} ClosureSharesEigen(d: Desc)
    requires IsCommon(d)
    ensures forall x :: x in Closure(d) ==> IsCommon(x) && x.params == d.params
    ensures forall x :: x in Closure(d) && x.kind == Spectral(Eigen) ==> x == WithClass(d, Eigen)
    ensures WithClass(d, Eigen) in Closure(d)
    decreases Level(d.kind.cls)
  {
    forall e | e in FamilyDeps(d)
      ensures forall x :: x in Closure(e) ==> IsCommon(x) && x.params == d.params
      ensures WithClass(d, Eigen) in Closure(e)
    {
      ClosureSharesEigen(e);
    }
    if d.kind.cls != Eigen {
      var deps := Dependencies(d);
      var first := if d.kind.cls == SpMAD then "SpAD"
                   else if d.kind.cls in {VE2, VE3} then "VE1"
                   else if d.kind.cls in {VR2, VR3} then "VR1"
                   else "eig";
      assert first in deps && deps[first].On?;
      assert deps[first].d in FamilyDeps(d);
    }
  }

  /**
   * Indices sharing a (matrix, explicit_hydrogens, kekulize) triple share
   * one `Eigen` key: it is the same descriptor value for both.
   */
  lemma SharedEigenKey(a: Desc, b: Desc)
    requires IsCommon(a) && IsCommon(b) && a.params == b.params
    ensures forall x, y :: x in Closure(a) && y in Closure(b) && x.kind == Spectral(Eigen) && y.kind == Spectral(Eigen) ==> x == y
  {
    ClosureSharesEigen(a);
    ClosureSharesEigen(b);
  }

  function ClassName(c: SpectralClass): string
  {
    match c
    case Eigen => "Eigen"
    case SpAbs => "SpAbs"
    case SpMax => "SpMax"
    case SpDiam => "SpDiam"
    case SpMean => "SpMean"
    case SpAD => "SpAD"
    case SpMAD => "SpMAD"
    case LogEE => "LogEE"
    case SM1 => "SM1"
    case VE1 => "VE1"
    case VE2 => "VE2"
    case VE3 => "VE3"
    case VR1 => "VR1"
    case VR2 => "VR2"
    case VR3 => "VR3"
  }

  /** The class whose `__name__` is `s`, if any. */
  function ClassNamed(s: string): (r: Option<SpectralClass>)
    ensures r.Some? ==> ClassName(r.value) == s
  {
    if s == "Eigen" then Some(Eigen)
    else if s == "SpAbs" then Some(SpAbs)
    else if s == "SpMax" then Some(SpMax)
    else if s == "SpDiam" then Some(SpDiam)
    else if s == "SpMean" then Some(SpMean)
    else if s == "SpAD" then Some(SpAD)
    else if s == "SpMAD" then Some(SpMAD)
    else if s == "LogEE" then Some(LogEE)
    else if s == "SM1" then Some(SM1)
    else if s == "VE1" then Some(VE1)
    else if s == "VE2" then Some(VE2)
    else if s == "VE3" then Some(VE3)
    else if s == "VR1" then Some(VR1)
    else if s == "VR2" then Some(VR2)
    else if s == "VR3" then Some(VR3)
    else None
  }

  lemma ClassNameRoundTrip(c: SpectralClass)
    ensures ClassNamed(ClassName(c)) == Some(c)
    ensures |ClassName(c)| > 0
    ensures ClassName(c)[|ClassName(c)| - 1] != 'K' && ClassName(c)[|ClassName(c)| - 1] != 'H'
  {
  }

  /** `Common.__str__`: the class name, then "K" when kekulized, then "H" with explicit hydrogens. */
  function Name(d: Desc): string
    requires IsCommon(d)
  {
    ClassName(d.kind.cls) + (if Truthy(d.params[2]) then "K" else "") + (if Truthy(d.params[1]) then "H" else "")
  }

  /** Reading a name back: strip a trailing "H", then a trailing "K", then look the class up. */
  function ParseName(s: string): Option<(SpectralClass, bool, bool)>
  {
    var h := |s| > 0 && s[|s| - 1] == 'H';
    var s1 := if h then s[..|s| - 1] else s;
    var k := |s1| > 0 && s1[|s1| - 1] == 'K';
    var s2 := if k then s1[..|s1| - 1] else s1;
    match ClassNamed(s2)
    case Some(c) => Some((c, k, h))
    case None => None
  }

  /**
   * The suffix rule is unambiguous: a spectral name gives back its class and
   * the truthiness of its kekulize and explicit_hydrogens flags (not the
   * matrix, which the name does not show).
   */
  lemma NameDeterminesClassAndFlags(d: Desc)
    requires IsCommon(d)
    ensures ParseName(Name(d)) == Some((d.kind.cls, Truthy(d.params[2]), Truthy(d.params[1])))
  {
    var c := ClassName(d.kind.cls);
    ClassNameRoundTrip(d.kind.cls);
    var withK := c + (if Truthy(d.params[2]) then "K" else "");
    assert Name(d) == withK + (if Truthy(d.params[1]) then "H" else "");
    if Truthy(d.params[1]) {
      assert Name(d)[..|Name(d)| - 1] == withK;
    }
    if Truthy(d.params[2]) {
      assert withK[..|withK| - 1] == c;
    }
  }

  // ---------------------------------------------------------------------
  // Eigen
  // ---------------------------------------------------------------------

  /** `Eig(val, vec, min, max)` */
  datatype Eig = Eig(val: seq<real>, vec: Matrix, min: nat, max: nat)

  /** `min` and `max` are the first positions of a smallest and of a largest eigenvalue. */
  predicate ExtremeIndices(e: Eig)
  {
    && e.min < |e.val| && e.max < |e.val|
    && (forall k :: 0 <= k < |e.val| ==> e.val[e.min] <= e.val[k] <= e.val[e.max])
    && (forall k :: 0 <= k < e.min ==> e.val[k] > e.val[e.min])
    && (forall k :: 0 <= k < e.max ==> e.val[k] < e.val[e.max])
  }

  /** A decomposition of an N-by-N matrix: N eigenvalues and an N-by-N eigenvector matrix. */
  predicate IsEig(e: Eig)
  {
    && ExtremeIndices(e)
    && |e.vec| == |e.val|
    && forall i :: 0 <= i < |e.vec| ==> |e.vec[i]| == |e.val|
  }

  /** `np.argmin`: the first position of a smallest element. */
  function ArgMin(w: seq<real>): (k: nat)
    requires w != []
    ensures k < |w|
    ensures forall j :: 0 <= j < |w| ==> w[k] <= w[j]
    ensures forall j :: 0 <= j < k ==> w[j] > w[k]
  {
    if |w| == 1 then 0
    else
      var k := ArgMin(w[..|w| - 1]);
      assert forall j :: 0 <= j < |w| - 1 ==> w[..|w| - 1][j] == w[j];
      if w[|w| - 1] < w[k] then |w| - 1 else k
  }

  /** `np.argmax`: the first position of a largest element. */
  function ArgMax(w: seq<real>): (k: nat)
    requires w != []
    ensures k < |w|
    ensures forall j :: 0 <= j < |w| ==> w[j] <= w[k]
    ensures forall j :: 0 <= j < k ==> w[j] < w[k]
  {
    if |w| == 1 then 0
    else
      var k := ArgMax(w[..|w| - 1]);
      assert forall j :: 0 <= j < |w| - 1 ==> w[..|w| - 1][j] == w[j];
      if w[|w| - 1] > w[k] then |w| - 1 else k
  }

  /**
   * `Eigen.calculate(matrix)`, with `eig` standing for `np.linalg.eig` with
   * the imaginary parts discarded. A None matrix raises ValueError; so does
   * an empty spectrum, where `np.argmin` has nothing to return.
   */
  function EigenCalculate(matrix: Option<Matrix>, eig: Matrix -> (seq<real>, Matrix)): (r: Outcome<Eig>)
    ensures matrix.None? ==> r == Raised(Error(ValueError, ["matrix is None"]))
    ensures matrix.Some? && eig(matrix.value).0 == [] ==> r.Raised? && ClassOf(r.exc) == ValueError
    ensures matrix.Some? && eig(matrix.value).0 != [] ==>
              && r.Value?
              && r.value.val == eig(matrix.value).0
              && r.value.vec == eig(matrix.value).1
              && ExtremeIndices(r.value)
  {
    if matrix.None? then Raised(Error(ValueError, ["matrix is None"]))
    else
      var (w, v) := eig(matrix.value);
      if w == [] then Raised(Error(ValueError, ["attempt to get argmin of an empty sequence"]))
      else Value(Eig(w, v, ArgMin(w), ArgMax(w)))
  }

  // ---------------------------------------------------------------------
  // The indices
  // ---------------------------------------------------------------------

  /** SM1, the spectral moment: `eig.val.sum()`. */
  function CalcSM1(e: Eig): real
  {
    Sum(e.val)
  }

  /** SpAbs, the graph energy: `np.abs(eig.val).sum()`; it bounds the spectral moment. */
  function CalcSpAbs(e: Eig): (r: real)
    ensures r >= 0.0
    ensures r >= Abs(CalcSM1(e))
  {
    AbsSumBound(e.val);
    AbsSum(e.val)
  }

  /** SpMax, the leading eigenvalue `eig.val[eig.max]`: the largest eigenvalue. */
  function CalcSpMax(e: Eig): (r: real)
    requires ExtremeIndices(e)
    ensures r == SeqMax(e.val)
  {
    var m := SeqMax(e.val);
    assert e.val[e.max] <= m;
    assert exists k :: 0 <= k < |e.val| && e.val[k] == m;
    e.val[e.max]
  }

  /** SpDiam, the spectral diameter: `SpMax - eig.val[eig.min]`. */
  function CalcSpDiam(spMax: real, e: Eig): real
    requires ExtremeIndices(e)
  {
    spMax - e.val[e.min]
  }

  /** Fed the SpMax of the same decomposition, SpDiam is the spread of the spectrum. */
  lemma SpDiamIsSpread(e: Eig)
    requires ExtremeIndices(e)
    ensures CalcSpDiam(CalcSpMax(e), e) == SeqMax(e.val) - SeqMin(e.val)
    ensures CalcSpDiam(CalcSpMax(e), e) >= 0.0
  {
    var m := SeqMin(e.val);
    assert m <= e.val[e.min];
    assert exists k :: 0 <= k < |e.val| && e.val[k] == m;
  }

  /** SpMean: `np.mean(eig.val)`. */
  function CalcSpMean(e: Eig): real
    requires e.val != []
  {
    Sum(e.val) / |e.val| as real
  }

  /** The mean eigenvalue lies between the smallest and the largest. */
  lemma SpMeanWithinSpectrum(e: Eig)
    requires ExtremeIndices(e)
    ensures e.val[e.min] <= CalcSpMean(e) <= e.val[e.max]
  {
    SumWithin(e.val, e.val[e.min], e.val[e.max]);
    DivWithin(Sum(e.val), |e.val| as real, e.val[e.min], e.val[e.max]);
  }

  /** The spectral moment is N times the mean eigenvalue. */
  lemma SM1IsCountTimesMean(e: Eig)
    requires e.val != []
    ensures CalcSM1(e) == |e.val| as real * CalcSpMean(e)
  {
  }

  /** SpAD: `np.abs(eig.val - SpMean).sum()`. */
  function CalcSpAD(e: Eig, spMean: real): (r: real)
    ensures r >= 0.0
  {
    AbsDevSumNonNegative(e.val, spMean);
    AbsDevSum(e.val, spMean)
  }

  /** SpMAD: `SpAD / N`. */
  function CalcSpMAD(spAD: real, n: nat): real
    requires n > 0
  {
    DivCount(spAD, n)
  }

  /**
   * The mean absolute deviation of the spectrum, SpAD over N with SpAD fed
   * the SpMean of the same decomposition, lies between 0 and the spectral
   * diameter.
   */
  lemma SpMADWithinDiameter(e: Eig)
    requires ExtremeIndices(e)
    ensures var mad := CalcSpMAD(CalcSpAD(e, CalcSpMean(e)), |e.val|);
            0.0 <= mad <= CalcSpDiam(CalcSpMax(e), e)
  {
    var n := |e.val|;
    var lo, hi := e.val[e.min], e.val[e.max];
    SpMeanWithinSpectrum(e);
    AbsDevSumNonNegative(e.val, CalcSpMean(e));
    AbsDevSumWithin(e.val, CalcSpMean(e), lo, hi);
    DivWithin(AbsDevSum(e.val, CalcSpMean(e)), n as real, 0.0, hi - lo);
  }

  /**
   * The shift LogEE subtracts before exponentiating: `max(eig.val[eig.max], 0)`.
   * No exponent the index evaluates is positive, so none overflows.
   */
  function LogEEShift(e: Eig): (a: real)
    requires ExtremeIndices(e)
    ensures a >= 0.0 && a >= SeqMax(e.val)
    ensures forall k :: 0 <= k < |e.val| ==> e.val[k] - a <= 0.0
  {
    var top := CalcSpMax(e);
    if top > 0.0 then top else 0.0
  }

  /** `np.exp(s)` applied elementwise, for the given `exp`. */
  function MapExp(s: seq<real>, exp: real -> real): (r: seq<real>)
    ensures |r| == |s| && forall k :: 0 <= k < |s| ==> r[k] == exp(s[k])
  {
    seq(|s|, k requires 0 <= k < |s| => exp(s[k]))
  }

  /** LogEE, the log-sum-exp `a + log(sum(exp(val - a)) + exp(-a))`, for the given `exp` and `log`. */
  function CalcLogEE(e: Eig, exp: real -> real, log: real -> real): real
    requires ExtremeIndices(e)
  {
    var a := LogEEShift(e);
    var shifted := seq(|e.val|, k requires 0 <= k < |e.val| => e.val[k] - a);
    a + log(Sum(MapExp(shifted, exp)) + exp(-a))
  }

  /** `eig.vec[:, eig.max]` */
  function LeadingVector(e: Eig): (r: seq<real>)
    requires IsEig(e)
    ensures |r| == |e.vec| && forall i :: 0 <= i < |r| ==> r[i] == e.vec[i][e.max]
  {
    seq(|e.vec|, i requires 0 <= i < |e.vec| => e.vec[i][e.max])
  }

  /** VE1: `np.abs(eig.vec[:, eig.max]).sum()`. */
  function CalcVE1(e: Eig): (r: real)
    requires IsEig(e)
    ensures r >= 0.0
    ensures r >= Abs(Sum(LeadingVector(e)))
  {
    AbsSumBound(LeadingVector(e));
    AbsSum(LeadingVector(e))
  }

  /** VE2: `VE1 / N`. */
  function CalcVE2(ve1: real, n: nat): real
    requires n > 0
  {
    DivCount(ve1, n)
  }

  /**
   * VE2, fed the VE1 of the same decomposition, is the mean absolute
   * coefficient of the leading eigenvector: non-negative, at least the
   * absolute value of the mean coefficient, and at most any bound on the
   * absolute coefficients.
   */
  lemma VE2IsMeanCoefficient(e: Eig, hi: real)
    requires IsEig(e)
    requires forall i :: 0 <= i < |e.vec| ==> Abs(e.vec[i][e.max]) <= hi
    ensures var ve2 := CalcVE2(CalcVE1(e), |e.val|);
            && 0.0 <= ve2 <= hi
            && Abs(Sum(LeadingVector(e))) <= ve2 * |e.val| as real
  {
    var v := LeadingVector(e);
    AbsSumBound(v);
    AbsSumWithin(v, hi);
    DivWithin(AbsSum(v), |e.val| as real, 0.0, hi);
  }

  /**
   * `np.log(x)` under `np.errstate(divide='raise', invalid='raise')`: zero
   * trips the divide trap, a negative argument the invalid trap.
   */
  function NpLog(x: real, log: real -> real): (r: Outcome<real>)
    ensures x > 0.0 ==> r == Value(log(x))
    ensures x <= 0.0 ==> r.Raised? && ClassOf(r.exc) == FloatingPointError
  {
    if x == 0.0 then Raised(Error(FloatingPointError, ["divide by zero encountered in log"]))
    else if x < 0.0 then Raised(Error(FloatingPointError, ["invalid value encountered in log"]))
    else Value(log(x))
  }

  /** The argument VE3 and VR3 take the logarithm of: `0.1 * N * x`. */
  function LogArg(n: nat, x: real): real
  {
    0.1 * n as real * x
  }

  /** VE3: `log(0.1 * N * VE1)` under `rethrow_zerodiv`. */
  function CalcVE3(ve1: real, n: nat, log: real -> real): (r: Outcome<real>)
    ensures !r.Raised?
    ensures r.Missing? <==> LogArg(n, ve1) <= 0.0
    ensures r.Missing? ==> ClassOf(r.error) == ZeroDivisionError
    ensures r.Value? ==> r.value == log(LogArg(n, ve1))
  {
    RethrowZeroDiv(NpLog(LogArg(n, ve1), log))
  }

  /** One bond's term of VR1, `x ** -0.5` on a float64: NaN below zero, +inf at zero. */
  function RandicTerm(x: real, rsqrt: real -> real): Float
  {
    if x < 0.0 then NaN else if x == 0.0 then PosInf else Finite(rsqrt(x))
  }

  /** Product of the leading-eigenvector coefficients at the two ends of a bond. */
  function BondProduct(e: Eig, b: Molecules.Bond): real
    requires IsEig(e) && b.begin < |e.vec| && b.end < |e.vec|
  {
    e.vec[b.begin][e.max] * e.vec[b.end][e.max]
  }

  predicate BondsInRange(e: Eig, bonds: seq<Molecules.Bond>)
  {
    forall k :: 0 <= k < |bonds| ==> bonds[k].begin < |e.vec| && bonds[k].end < |e.vec|
  }

  /** The value VR1 accumulates over `bonds`, in order. */
  function RandicSum(e: Eig, bonds: seq<Molecules.Bond>, rsqrt: real -> real): Float
    requires IsEig(e) && BondsInRange(e, bonds)
  {
    if bonds == [] then Finite(0.0)
    else AddFloat(RandicSum(e, bonds[..|bonds| - 1], rsqrt), RandicTerm(BondProduct(e, bonds[|bonds| - 1]), rsqrt))
  }

  /** VR1: `s += (vec[i, max] * vec[j, max]) ** -0.5` over the bonds of the molecule. */
  method CalcVR1(e: Eig, bonds: seq<Molecules.Bond>, rsqrt: real -> real) returns (s: Float)
    requires IsEig(e) && BondsInRange(e, bonds)
    ensures s == RandicSum(e, bonds, rsqrt)
  {
    s := Finite(0.0);
    for k := 0 to |bonds|
      invariant s == RandicSum(e, bonds[..k], rsqrt)
    {
      s := AddFloat(s, RandicTerm(BondProduct(e, bonds[k]), rsqrt));
      assert bonds[..k + 1][..k] == bonds[..k];
    }
    assert bonds[..|bonds|] == bonds;
  }

  /**
   * What VR1 comes to: NaN exactly when some bond's product is negative,
   * +inf exactly when none is negative and some is zero, and otherwise a
   * finite sum, non-negative when `rsqrt` is positive on positive reals.
   */
  lemma {:induction false} RandicSumCases(e: Eig, bonds: seq<Molecules.Bond>, rsqrt: real -> real)
    requires IsEig(e) && BondsInRange(e, bonds)
    ensures RandicSum(e, bonds, rsqrt).NaN? <==>
              exists k :: 0 <= k < |bonds| && BondProduct(e, bonds[k]) < 0.0
    ensures RandicSum(e, bonds, rsqrt).PosInf? <==>
              (forall k :: 0 <= k < |bonds| ==> BondProduct(e, bonds[k]) >= 0.0) &&
              (exists k :: 0 <= k < |bonds| && BondProduct(e, bonds[k]) == 0.0)
    ensures (forall x :: x > 0.0 ==> rsqrt(x) > 0.0) && RandicSum(e, bonds, rsqrt).Finite? ==>
              RandicSum(e, bonds, rsqrt).value >= 0.0
  {
    RandicSumNaN(e, bonds, rsqrt);
    RandicSumPosInf(e, bonds, rsqrt);
    RandicSumFinite(e, bonds, rsqrt);
  }

  lemma {:induction false} RandicSumNaN(e: Eig, bonds: seq<Molecules.Bond>, rsqrt: real -> real)
    requires IsEig(e) && BondsInRange(e, bonds)
    ensures RandicSum(e, bonds, rsqrt).NaN? <==>
              exists k :: 0 <= k < |bonds| && BondProduct(e, bonds[k]) < 0.0
  {
    if bonds != [] {
      var last := |bonds| - 1;
      var init := bonds[..last];
      RandicSumNaN(e, init, rsqrt);
      if RandicSum(e, bonds, rsqrt).NaN? {
        if RandicSum(e, init, rsqrt).NaN? {
          var j :| 0 <= j < |init| && BondProduct(e, init[j]) < 0.0;
          assert init[j] == bonds[j];
        } else {
          assert BondProduct(e, bonds[last]) < 0.0;
        }
      } else {
        forall k | 0 <= k < |bonds|
          ensures BondProduct(e, bonds[k]) >= 0.0
        {
          if k < last {
            assert init[k] == bonds[k];
          }
        }
      }
    }
  }

  lemma {:induction false} RandicSumPosInf(e: Eig, bonds: seq<Molecules.Bond>, rsqrt: real -> real)
    requires IsEig(e) && BondsInRange(e, bonds)
    ensures RandicSum(e, bonds, rsqrt).PosInf? <==>
              (forall k :: 0 <= k < |bonds| ==> BondProduct(e, bonds[k]) >= 0.0) &&
              (exists k :: 0 <= k < |bonds| && BondProduct(e, bonds[k]) == 0.0)
  {
    RandicSumNaN(e, bonds, rsqrt);
    if bonds != [] {
      var last := |bonds| - 1;
      var init := bonds[..last];
      RandicSumPosInf(e, init, rsqrt);
      RandicSumNaN(e, init, rsqrt);
      if RandicSum(e, bonds, rsqrt).PosInf? {
        if RandicSum(e, init, rsqrt).PosInf? {
          var j :| 0 <= j < |init| && BondProduct(e, init[j]) == 0.0;
          assert init[j] == bonds[j];
        } else {
          assert BondProduct(e, bonds[last]) == 0.0;
        }
      } else if !RandicSum(e, bonds, rsqrt).NaN? {
        forall k | 0 <= k < |bonds|
          ensures BondProduct(e, bonds[k]) != 0.0
        {
          if k < last {
            assert init[k] == bonds[k];
          }
        }
      }
    }
  }

  lemma {:induction false} RandicSumFinite(e: Eig, bonds: seq<Molecules.Bond>, rsqrt: real -> real)
    requires IsEig(e) && BondsInRange(e, bonds)
    ensures (forall x :: x > 0.0 ==> rsqrt(x) > 0.0) && RandicSum(e, bonds, rsqrt).Finite? ==>
              RandicSum(e, bonds, rsqrt).value >= 0.0
  {
    if bonds != [] {
      RandicSumFinite(e, bonds[..|bonds| - 1], rsqrt);
    }
  }

  /** VR2: `VR1 / N`. */
  function CalcVR2(vr1: Float, n: nat): (r: Float)
    requires n > 0
    ensures r.NaN? <==> vr1.NaN?
    ensures r.PosInf? <==> vr1.PosInf?
    ensures r.Finite? ==> r.value * n as real == vr1.value
  {
    DivFloat(vr1, n)
  }

  /**
   * VR3: `log(0.1 * N * VR1)` under `rethrow_zerodiv`. NaN and +inf pass
   * through `log` without tripping a trap; a finite argument that is not
   * positive becomes a missing value.
   */
  function CalcVR3(vr1: Float, n: nat, log: real -> real): (r: Outcome<Float>)
    ensures !r.Raised?
    ensures r.Missing? <==> vr1.Finite? && LogArg(n, vr1.value) <= 0.0
    ensures r.Missing? ==> ClassOf(r.error) == ZeroDivisionError
    ensures vr1.NaN? ==> r == Value(NaN)
    ensures vr1.PosInf? ==> r == Value(PosInf)
    ensures r.Value? && vr1.Finite? ==> r.value == Finite(log(LogArg(n, vr1.value)))
  {
    match vr1
    case NaN => Value(NaN)
    case PosInf => Value(PosInf)
    case Finite(x) =>
      var arg := LogArg(n, x);
      if arg > 0.0 then Value(Finite(log(arg)))
      else
        var o := RethrowZeroDiv(NpLog(arg, log));
        assert o.Missing?;
        Missing(o.error)
  }

  // ---------------------------------------------------------------------
  // The `method` registry
  // ---------------------------------------------------------------------

  /** The classes carrying `@method`, in the order the module defines them. */
  const Decorated: seq<SpectralClass> :=
    [SpAbs, SpMax, SpDiam, SpAD, SpMAD, LogEE, SM1, VE1, VE2, VE3, VR1, VR2, VR3]

  /** The module-level `methods` list, and the `as_argument` attribute the decorator gives each class. */
  class MethodRegistry {
    var methods: seq<SpectralClass>
    var asArgument: map<SpectralClass, string>

    constructor ()
      ensures methods == [] && asArgument == map[]
    {
      methods := [];
      asArgument := map[];
    }

    /** The `method` decorator: append the class, set its `as_argument` to its name, and hand it back. */
    method Method(cls: SpectralClass) returns (r: SpectralClass)
      modifies this
      ensures methods == old(methods) + [cls]
      ensures asArgument == old(asArgument)[cls := ClassName(cls)]
      ensures r == cls
    {
      methods := methods + [cls];
      asArgument := asArgument[cls := ClassName(cls)];
      r := cls;
    }
  }

  /** Importing the module: each decorated class definition, in order, goes through `method`. */
  method DefineMethods() returns (registry: MethodRegistry)
    ensures fresh(registry)
    ensures registry.methods == Decorated
    ensures forall c :: c in registry.asArgument <==> c in Decorated
    ensures forall c :: c in registry.asArgument ==> registry.asArgument[c] == ClassName(c)
  {
    registry := new MethodRegistry();
    for k := 0 to |Decorated|
      invariant registry.methods == Decorated[..k]
      invariant forall c :: c in registry.asArgument <==> c in Decorated[..k]
      invariant forall c :: c in registry.asArgument ==> registry.asArgument[c] == ClassName(c)
    {
      var c := registry.Method(Decorated[k]);
      assert Decorated[..k + 1] == Decorated[..k] + [Decorated[k]];
    }
    assert Decorated[..|Decorated|] == Decorated;
  }

  /** `{m.__name__: m for m in methods}` */
  function MethodDict(ms: seq<SpectralClass>): (d: map<string, SpectralClass>)
    ensures forall k :: k in d ==> ClassName(d[k]) == k && d[k] in ms
    ensures forall m :: m in ms ==> ClassName(m) in d
  {
    if ms == [] then map[]
    else MethodDict(ms[..|ms| - 1])[ClassName(ms[|ms| - 1]) := ms[|ms| - 1]]
  }

  /** `{m.__name__: m for m in ms}` holds a class under its name exactly when the class is listed. */
  lemma MethodDictHolds(ms: seq<SpectralClass>, c: SpectralClass)
    ensures ClassName(c) in MethodDict(ms) <==> c in ms
    ensures ClassName(c) in MethodDict(ms) ==> MethodDict(ms)[ClassName(c)] == c
  {
    ClassNameRoundTrip(c);
    if ClassName(c) in MethodDict(ms) {
      ClassNameRoundTrip(MethodDict(ms)[ClassName(c)]);
    }
  }

  /** `method_dict` names exactly the thirteen decorated classes; Eigen and SpMean are not in it. */
  lemma MethodDictContents(c: SpectralClass)
    ensures ClassName(c) in MethodDict(Decorated) <==> c != Eigen && c != SpMean
    ensures ClassName(c) in MethodDict(Decorated) ==> MethodDict(Decorated)[ClassName(c)] == c
  {
    MethodDictHolds(Decorated, c);
    DecoratedClasses(c);
  }

  lemma DecoratedClasses(c: SpectralClass)
    ensures c in Decorated <==> c != Eigen && c != SpMean
  {
    match c
    case Eigen =>
    case SpMean =>
    case _ => assert c in Decorated;
  }

  /** The argument of `get_method`: a name, or anything else (here, a class). */
  datatype MethodArg = Named(name: string) | Given(cls: SpectralClass)

  /** `get_method(n)`: look names up in `method_dict` (KeyError if absent); return anything else unchanged. */
  function GetMethod(methodDict: map<string, SpectralClass>, n: MethodArg): (r: Outcome<SpectralClass>)
    ensures n.Given? ==> r == Value(n.cls)
    ensures n.Named? && n.name in methodDict ==> r == Value(methodDict[n.name])
    ensures n.Named? && n.name !in methodDict ==> r.Raised? && ClassOf(r.exc) == KeyError
  {
    match n
    case Given(c) => Value(c)
    case Named(s) => if s in methodDict then Value(methodDict[s]) else Raised(Error(KeyError, [s]))
  }

  /** Looking a decorated class up by its name finds it; "SpMean" and "Eigen" raise KeyError. */
  lemma GetMethodByName(c: SpectralClass)
    ensures GetMethod(MethodDict(Decorated), Named(ClassName(c))) ==
              if c in Decorated then Value(c) else Raised(Error(KeyError, [ClassName(c)]))
  {
    MethodDictContents(c);
  }
}
