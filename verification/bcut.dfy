/**
 * The BCUT family of mordred/_bcut.py: the Burden matrix of a molecule, the
 * eigenvalues of that matrix with an atomic property on its diagonal, and
 * the BCUT descriptor that picks one of them.
 *
 * The atomic property is given as one optional value per atom (`None` where
 * the property function returns NaN); `np.linalg.eig` is a function-valued
 * parameter returning the (real) eigenvalues.
 */
module Bcut {
  import opened Numeric
  import opened Descriptors
  import opened Molecules

  type Matrix = seq<seq<real>>

  // ---------------------------------------------------------------------
  // Burden
  // ---------------------------------------------------------------------

  /** Every bond joins two atoms that have a degree. */
  predicate BondsIn(bonds: seq<Bond>, degree: seq<nat>)
  {
    forall k :: 0 <= k < |bonds| ==> bonds[k].begin < |degree| && bonds[k].end < |degree|
  }

  /** The bond sets cell (i, j) and cell (j, i). */
  predicate Joins(b: Bond, i: nat, j: nat)
  {
    (b.begin == i && b.end == j) || (b.begin == j && b.end == i)
  }

  /**
   * The weight a bond writes: a tenth of its bond order (1.0 when RDKit
   * cannot give one), plus 0.01 when either end is a terminal atom.
   */
  function Weight(b: Bond, degree: seq<nat>): real
    requires b.begin < |degree| && b.end < |degree|
  {
    var w := match b.order case Some(o) => o / 10.0 case None => 1.0;
    if degree[b.begin] == 1 || degree[b.end] == 1 then w + 0.01 else w
  }

  /** Cell (i, j) of the Burden matrix after the bonds `bonds` have been written, in order. */
  function BurdenCell(bonds: seq<Bond>, degree: seq<nat>, i: nat, j: nat): real
    requires BondsIn(bonds, degree)
  {
    if bonds == [] then 0.001
    else
      var last := bonds[|bonds| - 1];
      if Joins(last, i, j) then Weight(last, degree) else BurdenCell(bonds[..|bonds| - 1], degree, i, j)
  }

  /** `Burden.calculate`: start from 0.001 everywhere, then write each bond's weight at both of its cells. */
  method CalculateBurden(m: Mol) returns (mat: array2<real>)
    requires Valid(m)
    ensures fresh(mat)
    ensures mat.Length0 == m.numAtoms && mat.Length1 == m.numAtoms
    ensures forall i, j :: 0 <= i < m.numAtoms && 0 <= j < m.numAtoms ==>
              mat[i, j] == BurdenCell(m.bonds, m.degree, i, j)
  {
    var n := m.numAtoms;
    mat := new real[n, n]((i, j) => 0.001);
    for k := 0 to |m.bonds|
      invariant forall i, j :: 0 <= i < n && 0 <= j < n ==> mat[i, j] == BurdenCell(m.bonds[..k], m.degree, i, j)
    {
      var b := m.bonds[k];
      var w: real;
      match b.order {
        case Some(o) => w := o / 10.0;
        case None => w := 1.0;
      }
      if m.degree[b.begin] == 1 || m.degree[b.end] == 1 {
        w := w + 0.01;
      }
      mat[b.begin, b.end] := w;
      mat[b.end, b.begin] := w;
      assert m.bonds[..k + 1][..k] == m.bonds[..k];
    }
    assert m.bonds[..|m.bonds|] == m.bonds;
  }

  /** The Burden matrix is symmetric. */
  lemma {:induction false} BurdenSymmetric(bonds: seq<Bond>, degree: seq<nat>, i: nat, j: nat)
    requires BondsIn(bonds, degree)
    ensures BurdenCell(bonds, degree, i, j) == BurdenCell(bonds, degree, j, i)
  {
    if bonds != [] {
      BurdenSymmetric(bonds[..|bonds| - 1], degree, i, j);
    }
  }

  /** A pair of atoms no bond joins (the diagonal included) keeps the baseline 0.001. */
  lemma {:induction false} BurdenUnbonded(bonds: seq<Bond>, degree: seq<nat>, i: nat, j: nat)
    requires BondsIn(bonds, degree)
    requires forall k :: 0 <= k < |bonds| ==> !Joins(bonds[k], i, j)
    ensures BurdenCell(bonds, degree, i, j) == 0.001
  {
    if bonds != [] {
      var init := bonds[..|bonds| - 1];
      assert forall k :: 0 <= k < |init| ==> init[k] == bonds[k];
      BurdenUnbonded(init, degree, i, j);
    }
  }

  /** A pair joined by some bond holds the weight of the last bond that joins it. */
  lemma {:induction false} BurdenLastBondWins(bonds: seq<Bond>, degree: seq<nat>, i: nat, j: nat, k: nat)
    requires BondsIn(bonds, degree)
    requires k < |bonds| && Joins(bonds[k], i, j)
    requires forall l :: k < l < |bonds| ==> !Joins(bonds[l], i, j)
    ensures BurdenCell(bonds, degree, i, j) == Weight(bonds[k], degree)
  {
    if k < |bonds| - 1 {
      var init := bonds[..|bonds| - 1];
      assert forall l :: 0 <= l < |init| ==> init[l] == bonds[l];
      BurdenLastBondWins(init, degree, i, j, k);
    }
  }

  // ---------------------------------------------------------------------
  // BurdenEigenValues
  // ---------------------------------------------------------------------

  /** The rows of a two-dimensional array. */
  function Rows(a: array2<real>): (r: Matrix)
    reads a
    ensures |r| == a.Length0
    ensures forall i :: 0 <= i < |r| ==> |r[i]| == a.Length1
    ensures forall i, j :: 0 <= i < a.Length0 && 0 <= j < a.Length1 ==> r[i][j] == a[i, j]
  {
    seq(a.Length0, i requires 0 <= i < a.Length0 reads a =>
      seq(a.Length1, j requires 0 <= j < a.Length1 reads a => a[i, j]))
  }

  predicate IsSquare(m: Matrix, n: nat)
  {
    |m| == n && forall i :: 0 <= i < n ==> |m[i]| == n
  }

  /** `np.fill_diagonal(m, ps)`: the matrix with `ps` along its diagonal. */
  function WithDiagonal(m: Matrix, ps: seq<real>): (r: Matrix)
    requires IsSquare(m, |ps|)
    ensures IsSquare(r, |ps|)
    ensures forall i :: 0 <= i < |ps| ==> r[i][i] == ps[i]
    ensures forall i, j :: 0 <= i < |ps| && 0 <= j < |ps| && i != j ==> r[i][j] == m[i][j]
  {
    seq(|ps|, i requires 0 <= i < |ps| =>
      seq(|ps|, j requires 0 <= j < |ps| => if i == j then ps[i] else m[i][j]))
  }

  predicate AnyNaN(props: seq<Option<real>>)
  {
    exists k :: 0 <= k < |props| && props[k].None?
  }

  /** The property values, once none of them is NaN. */
  function PropValues(props: seq<Option<real>>): (ps: seq<real>)
    requires !AnyNaN(props)
    ensures |ps| == |props| && forall k :: 0 <= k < |ps| ==> props[k] == Some(ps[k])
  {
    seq(|props|, k requires 0 <= k < |props| => props[k].value)
  }

  predicate NonIncreasing(s: seq<real>)
  {
    forall i, j :: 0 <= i < j < |s| ==> s[i] >= s[j]
  }

  /** Insert `x` before the first element it is not smaller than. */
  function Insert(x: real, s: seq<real>): seq<real>
  {
    if s == [] || x >= s[0] then [x] + s else [s[0]] + Insert(x, s[1..])
  }

  lemma {:induction false} InsertPermutes(x: real, s: seq<real>)
    ensures multiset(Insert(x, s)) == multiset(s) + multiset{x}
  {
    if s != [] && x < s[0] {
      InsertPermutes(x, s[1..]);
      assert s == [s[0]] + s[1..];
    }
  }

  lemma {:induction false} InsertBounded(x: real, s: seq<real>, b: real)
    requires x <= b && forall k :: 0 <= k < |s| ==> s[k] <= b
    ensures forall k :: 0 <= k < |Insert(x, s)| ==> Insert(x, s)[k] <= b
  {
    if s != [] && x < s[0] {
      InsertBounded(x, s[1..], b);
    }
  }

  lemma {:induction false} InsertSorted(x: real, s: seq<real>)
    requires NonIncreasing(s)
    ensures NonIncreasing(Insert(x, s))
  {
    if s != [] && x < s[0] {
      InsertSorted(x, s[1..]);
      InsertBounded(x, s[1..], s[0]);
    }
  }

  /** `np.sort(ev)[-1::-1]`: the values, largest first. */
  function SortDescending(s: seq<real>): (r: seq<real>)
    ensures NonIncreasing(r)
    ensures multiset(r) == multiset(s)
    ensures |r| == |s|
  {
    if s == [] then []
    else
      var rest := SortDescending(s[1..]);
      InsertSorted(s[0], rest);
      InsertPermutes(s[0], rest);
      assert s == [s[0]] + s[1..];
      var r := Insert(s[0], rest);
      assert |r| == |multiset(r)|;
      r
  }

  function AsFloats(s: seq<real>): (r: seq<Float>)
    ensures |r| == |s| && forall k :: 0 <= k < |s| ==> r[k] == Finite(s[k])
  {
    seq(|s|, k requires 0 <= k < |s| => Finite(s[k]))
  }

  /**
   * What `BurdenEigenValues.calculate` returns: `[nan]` when the property is
   * NaN at some atom, otherwise the eigenvalues of the Burden matrix with the
   * property on its diagonal, largest first.
   */
  function EigenValuesOf(burden: Matrix, props: seq<Option<real>>, eig: Matrix -> seq<real>): (r: seq<Float>)
    requires IsSquare(burden, |props|)
  {
    if AnyNaN(props) then [NaN]
    else AsFloats(SortDescending(eig(WithDiagonal(burden, PropValues(props)))))
  }

  /** The eigenvalues are returned largest first and are exactly those `eig` computed. */
  lemma EigenValuesSorted(burden: Matrix, props: seq<Option<real>>, eig: Matrix -> seq<real>)
    requires IsSquare(burden, |props|) && !AnyNaN(props)
    ensures var ev := eig(WithDiagonal(burden, PropValues(props)));
            var r := EigenValuesOf(burden, props, eig);
            && |r| == |ev|
            && (forall k :: 0 <= k < |r| ==> r[k].Finite?)
            && (forall i, j :: 0 <= i < j < |r| ==> r[i].value >= r[j].value)
            && multiset(seq(|r|, k requires 0 <= k < |r| => r[k].value)) == multiset(ev)
  {
    var ev := eig(WithDiagonal(burden, PropValues(props)));
    var s := SortDescending(ev);
    var r := EigenValuesOf(burden, props, eig);
    assert r == AsFloats(s);
    var vals := seq(|r|, k requires 0 <= k < |r| => r[k].value);
    assert forall k :: 0 <= k < |r| ==> vals[k] == s[k];
    assert vals == s;
  }

  /**
   * `BurdenEigenValues.calculate(mol, burden)`: copy the Burden matrix, give
   * up with `[nan]` if the property is NaN anywhere, fill the copy's diagonal
   * with the property, and sort its eigenvalues largest first. The Burden
   * matrix itself is left alone.
   */
  method CalculateEigenValues(burden: array2<real>, props: seq<Option<real>>, eig: Matrix -> seq<real>)
    returns (ev: seq<Float>)
    requires burden.Length0 == |props| && burden.Length1 == |props|
    ensures IsSquare(Rows(burden), |props|)
    ensures ev == EigenValuesOf(Rows(burden), props, eig)
  {
    var n := |props|;
    var bmat := new real[n, n]((i, j) reads burden => if 0 <= i < burden.Length0 && 0 <= j < burden.Length1 then burden[i, j] else 0.0);
    if exists k :: 0 <= k < n && props[k].None? {
      return [NaN];
    }
    var ps := PropValues(props);
    for i := 0 to n
      invariant forall r, c :: 0 <= r < n && 0 <= c < n ==>
                  bmat[r, c] == if r == c && r < i then ps[r] else burden[r, c]
    {
      bmat[i, i] := ps[i];
    }
    forall r | 0 <= r < n
      ensures Rows(bmat)[r] == WithDiagonal(Rows(burden), ps)[r]
    {
    }
    assert Rows(bmat) == WithDiagonal(Rows(burden), ps);
    ev := AsFloats(SortDescending(eig(Rows(bmat))));
  }

  // ---------------------------------------------------------------------
  // BCUT
  // ---------------------------------------------------------------------

  /** `bev[nth]` with Python's negative indices; an IndexError gives NaN. */
  function Pick(bev: seq<Float>, nth: int): (r: Float)
    ensures 0 <= nth < |bev| ==> r == bev[nth]
    ensures -|bev| <= nth < 0 ==> r == bev[|bev| + nth]
    ensures !(-|bev| <= nth < |bev|) ==> r == NaN
  {
    if 0 <= nth < |bev| then bev[nth]
    else if -|bev| <= nth < 0 then bev[|bev| + nth]
    else NaN
  }

  /** A property that is NaN at some atom makes every BCUT of it NaN. */
  lemma BcutNaNProperty(burden: Matrix, props: seq<Option<real>>, eig: Matrix -> seq<real>, nth: int)
    requires IsSquare(burden, |props|) && AnyNaN(props)
    ensures Pick(EigenValuesOf(burden, props, eig), nth) == NaN
  {
  }

  /** Membership in a sequence, through its multiset. */
  lemma InMultiset(s: seq<real>, t: seq<real>, k: nat)
    requires multiset(s) == multiset(t) && k < |t|
    ensures exists i :: 0 <= i < |s| && s[i] == t[k]
  {
    assert t[k] in multiset(t);
    assert t[k] in multiset(s);
  }

  /** The first element of a sorted copy is the largest, the last the smallest. */
  lemma SortedEnds(s: seq<real>, ev: seq<real>)
    requires NonIncreasing(s) && multiset(s) == multiset(ev) && ev != []
    ensures |s| == |ev|
    ensures s[0] == SeqMax(ev) && s[|s| - 1] == SeqMin(ev)
  {
    assert |s| == |multiset(s)| == |multiset(ev)| == |ev|;
    var hi, lo := SeqMax(ev), SeqMin(ev);
    var ih :| 0 <= ih < |ev| && ev[ih] == hi;
    var il :| 0 <= il < |ev| && ev[il] == lo;
    InMultiset(s, ev, ih);
    InMultiset(s, ev, il);
    InMultiset(ev, s, 0);
    InMultiset(ev, s, |s| - 1);
  }

  /**
   * `nth = 0` is the highest eigenvalue and `nth = -1` the lowest, as the
   * class documents; a molecule without atoms has none, and gives NaN.
   */
  lemma BcutHighestAndLowest(burden: Matrix, props: seq<Option<real>>, eig: Matrix -> seq<real>)
    requires IsSquare(burden, |props|) && !AnyNaN(props)
    ensures var ev := eig(WithDiagonal(burden, PropValues(props)));
            && (ev != [] ==> Pick(EigenValuesOf(burden, props, eig), 0) == Finite(SeqMax(ev)))
            && (ev != [] ==> Pick(EigenValuesOf(burden, props, eig), -1) == Finite(SeqMin(ev)))
            && (ev == [] ==> Pick(EigenValuesOf(burden, props, eig), 0) == NaN)
  {
    var ev := eig(WithDiagonal(burden, PropValues(props)));
    if ev != [] {
      SortedEnds(SortDescending(ev), ev);
    }
  }

  /** The BCUT descriptor `BCUT(prop, nth)`; its parameters are `(prop, nth)`. */
  function BcutDesc(p: Property, nth: int): Desc
  {
    Desc(BCUT, [Prop(p), Int(nth)])
  }

  /** `BurdenEigenValues(prop, gasteiger_charges)` */
  function BevDesc(p: Property, gasteigerCharges: bool): Desc
  {
    Desc(BurdenEigenValues, [Prop(p), Bool(gasteigerCharges)])
  }

  /** `Burden()`, which takes no parameters. */
  const BurdenDesc := Desc(Burden, [])

  /** `BCUT.dependencies`: the eigenvalues for its property, with the property's `gasteiger_charges` flag. */
  function BcutDependencies(p: Property): (r: map<string, Dep>)
    ensures r.Keys == {"bev"} && r["bev"] == On(BevDesc(p, p.gasteigerCharges))
  {
    map["bev" := On(BevDesc(p, p.gasteigerCharges))]
  }

  /** `BurdenEigenValues.dependencies`: the one Burden matrix. */
  function BevDependencies(): (r: map<string, Dep>)
    ensures r.Keys == {"burden"} && r["burden"] == On(BurdenDesc)
  {
    map["burden" := On(BurdenDesc)]
  }

  /**
   * BCUTs of one property share one eigenvalue computation whatever their
   * `nth`, and every eigenvalue computation shares the one Burden matrix.
   */
  lemma BcutSharing(p: Property, n1: int, n2: int, q: Property)
    ensures Compare(EQ, BcutDependencies(BcutDesc(p, n1).params[0].p)["bev"].d,
                        BcutDependencies(BcutDesc(p, n2).params[0].p)["bev"].d) == Value(true)
    ensures BevDependencies()["burden"].d == BurdenDesc
    ensures Compare(EQ, BcutDesc(p, n1), BcutDesc(q, n2)) == Value(true) <==> p == q && n1 == n2
  {
    CompareReflexive(BevDesc(p, p.gasteigerCharges));
    if Compare(EQ, BcutDesc(p, n1), BcutDesc(q, n2)) == Value(true) {
      EqIsIdentity(BcutDesc(p, n1), BcutDesc(q, n2));
      assert BcutDesc(p, n1).params[0] == BcutDesc(q, n2).params[0];
      assert BcutDesc(p, n1).params[1] == BcutDesc(q, n2).params[1];
    } else if p == q && n1 == n2 {
      CompareReflexive(BcutDesc(p, n1));
    }
  }

  /** `BCUT.preset`: for each property in turn, the highest (0) and the lowest (-1) eigenvalue. */
  function Preset(props: seq<Property>): (r: seq<Desc>)
    ensures |r| == 2 * |props|
    ensures forall k :: 0 <= k < |props| ==> r[2 * k] == BcutDesc(props[k], 0) && r[2 * k + 1] == BcutDesc(props[k], -1)
  {
    if props == [] then []
    else [BcutDesc(props[0], 0), BcutDesc(props[0], -1)] + Preset(props[1..])
  }

  // ---------------------------------------------------------------------
  // Names
  // ---------------------------------------------------------------------

  function Digit(d: nat): char
    requires d < 10
  {
    "0123456789"[d]
  }

  predicate IsDigit(c: char)
  {
    '0' <= c <= '9'
  }

  /** `str(n)` for a natural number. */
  function NatStr(n: nat): (s: string)
    ensures s != [] && forall k :: 0 <= k < |s| ==> IsDigit(s[k])
  {
    if n < 10 then [Digit(n)] else NatStr(n / 10) + [Digit(n % 10)]
  }

  /** `int(s)` for a string of decimal digits. */
  function DigitsValue(s: string): nat
    requires forall k :: 0 <= k < |s| ==> IsDigit(s[k])
  {
    if s == [] then 0
    else
      var c := s[|s| - 1];
      assert IsDigit(c);
      DigitsValue(s[..|s| - 1]) * 10 + (c as int - '0' as int)
  }

  lemma {:induction false} DigitsValueNatStr(n: nat)
    ensures DigitsValue(NatStr(n)) == n
  {
    if n >= 10 {
      var s := NatStr(n);
      assert s[..|s| - 1] == NatStr(n / 10);
      DigitsValueNatStr(n / 10);
    }
  }

  /** `BCUT.__str__`: `BCUT<prop>-<|nth|>l` for negative `nth`, else `BCUT<prop>-<nth + 1>h`. */
  function BcutName(propName: string, nth: int): string
  {
    "BCUT" + propName + "-" + (if nth < 0 then NatStr(-nth) + "l" else NatStr(nth + 1) + "h")
  }

  /** The position of the last '-' in `s`. */
  function LastDash(s: string): (r: Option<nat>)
    ensures r.Some? ==> r.value < |s| && s[r.value] == '-'
  {
    if s == [] then None
    else if s[|s| - 1] == '-' then Some(|s| - 1)
    else LastDash(s[..|s| - 1])
  }

  lemma {:induction false} LastDashBeforeDigits(p: string, d: string)
    requires forall k :: 0 <= k < |d| ==> IsDigit(d[k])
    ensures LastDash(p + "-" + d) == Some(|p|)
  {
    if d != [] {
      var s := p + "-" + d;
      assert s[..|s| - 1] == p + "-" + d[..|d| - 1];
      LastDashBeforeDigits(p, d[..|d| - 1]);
    } else {
      assert (p + "-" + d)[|p|] == '-';
    }
  }

  /** Reading the part between "BCUT" and the final tag letter: property name, '-', digits. */
  function ParseBody(body: string, tag: char): Option<(string, int)>
  {
    match LastDash(body)
    case None => None
    case Some(dash) =>
      var digits := body[dash + 1..];
      if !(forall k :: 0 <= k < |digits| ==> IsDigit(digits[k])) then None
      else
        var n: int := DigitsValue(digits);
        if tag == 'l' then Some((body[..dash], -n))
        else if tag == 'h' then Some((body[..dash], n - 1))
        else None
  }

  /** Reading a BCUT name back into its property name and `nth`. */
  function ParseBcutName(s: string): Option<(string, int)>
  {
    if |s| < 5 || s[..4] != "BCUT" then None
    else ParseBody(s[4..|s| - 1], s[|s| - 1])
  }

  lemma ParseBodyRoundTrip(propName: string, n: nat, tag: char)
    ensures ParseBody(propName + "-" + NatStr(n), tag) ==
              if tag == 'l' then Some((propName, 0 - n as int))
              else if tag == 'h' then Some((propName, n as int - 1))
              else None
  {
    var digits := NatStr(n);
    var body := propName + "-" + digits;
    LastDashBeforeDigits(propName, digits);
    assert body[|propName| + 1..] == digits;
    assert body[..|propName|] == propName;
    DigitsValueNatStr(n);
  }

  /** A BCUT name gives back the property name and `nth` it was made from. */
  lemma BcutNameRoundTrip(propName: string, nth: int)
    ensures ParseBcutName(BcutName(propName, nth)) == Some((propName, nth))
  {
    var n: nat := if nth < 0 then -nth else nth + 1;
    var body := propName + "-" + NatStr(n);
    var tag := if nth < 0 then 'l' else 'h';
    var s := BcutName(propName, nth);
    assert s == "BCUT" + body + [tag];
    assert s[..4] == "BCUT";
    assert s[4..|s| - 1] == body;
    ParseBodyRoundTrip(propName, n, tag);
  }

  /** Different (property name, nth) pairs give different BCUT names. */
  lemma BcutNameInjective(p1: string, n1: int, p2: string, n2: int)
    requires BcutName(p1, n1) == BcutName(p2, n2)
    ensures p1 == p2 && n1 == n2
  {
    BcutNameRoundTrip(p1, n1);
    BcutNameRoundTrip(p2, n2);
  }
}
