/**
 * What each modelled descriptor class declares about itself: the flags for
 * preparing the molecule, `dependencies()` and `preset()`, with the
 * `Descriptor` base class (mordred/_base/descriptor.py) supplying the
 * defaults that a class does not override.
 */
module Catalog {
  import opened Numeric
  import opened Descriptors
  import Spectral
  import Bcut

  /*
   * `Other(_)` is a stub for the descriptor classes outside this model (the
   * matrix descriptors among them). The clauses below give such a class the
   * base class's defaults; whether a particular one overrides them is not
   * part of this model.
   */

  /** The parameter shapes the constructors of the modelled classes produce. */
  predicate WellFormed(d: Desc)
  {
    match d.kind
    case Spectral(_) => |d.params| == 3
    case Burden => d.params == []
    case BurdenEigenValues => |d.params| == 2 && d.params[0].Prop? && d.params[1].Int?
    case BCUT => |d.params| == 2 && d.params[0].Prop? && d.params[1].Int?
    case Other(_) => true
  }

  /**
   * The flags of a descriptor. The spectral classes keep `explicit_hydrogens`
   * and `kekulize` as instance parameters and require a connected molecule;
   * the BCUT classes never add hydrogens; everything else keeps the base
   * class defaults.
   */
  function FlagsOf(d: Desc): (f: Flags)
    requires WellFormed(d)
    ensures d.kind.Spectral? ==>
              f == Flags(Truthy(d.params[1]), Truthy(d.params[2]), true, false)
    ensures d.kind in {Burden, BurdenEigenValues, BCUT} ==>
              f == DefaultFlags.(explicitHydrogens := false)
    ensures d.kind.Other? ==> f == DefaultFlags
    ensures !f.require3D
  {
    match d.kind
    case Spectral(_) =>
      DefaultFlags.(explicitHydrogens := Truthy(d.params[1]), kekulize := Truthy(d.params[2]), requireConnected := true)
    case Other(_) => DefaultFlags
    case _ => DefaultFlags.(explicitHydrogens := false)
  }

  /** `dependencies()`: the class's own dict, or None from the base class. */
  function DependenciesOf(d: Desc): (r: Option<map<string, Dep>>)
    requires WellFormed(d)
    ensures r.Some? <==> d.kind.Spectral? || d.kind in {BurdenEigenValues, BCUT}
    ensures d.kind == BCUT ==> r == Some(Bcut.BcutDependencies(d.params[0].p))
    ensures d.kind == BurdenEigenValues ==> r == Some(Bcut.BevDependencies())
  {
    match d.kind
    case Spectral(_) => Some(Spectral.Dependencies(d))
    case BurdenEigenValues => Some(Bcut.BevDependencies())
    case BCUT => Some(Bcut.BcutDependencies(d.params[0].p))
    case _ => None
  }

  /** `preset()`: BCUT's two descriptors per property; the base class's empty tuple for every other class. */
  function PresetOf(k: Kind, props: seq<Property>): (r: seq<Desc>)
    ensures k == BCUT ==> r == Bcut.Preset(props)
    ensures k != BCUT ==> r == []
    ensures forall i :: 0 <= i < |r| ==> WellFormed(r[i]) && r[i].kind == k
  {
    if k == BCUT then
      var r := Bcut.Preset(props);
      assert forall i :: 0 <= i < |r| ==> WellFormed(r[i]) && r[i].kind == k by {
        forall i | 0 <= i < |r|
          ensures WellFormed(r[i]) && r[i].kind == k
        {
          var j := i / 2;
          if i == 2 * j {
            assert r[i] == Bcut.BcutDesc(props[j], 0);
          } else {
            assert r[i] == Bcut.BcutDesc(props[j], -1);
          }
        }
      }
      r
    else []
  }

  /** BCUTs of one property declare the same dependencies whatever their `nth`: one BurdenEigenValues of that property. */
  lemma BcutNthSharesDependencies(p: Property, n1: int, n2: int)
    ensures DependenciesOf(Bcut.BcutDesc(p, n1)) == DependenciesOf(Bcut.BcutDesc(p, n2))
    ensures DependenciesOf(Bcut.BcutDesc(p, n1)) == Some(map["bev" := On(Bcut.BevDesc(p, p.gasteigerCharges))])
  {
  }

  /** A dependency of a BCUT-family descriptor is a well-formed descriptor one step down the chain BCUT, BurdenEigenValues, Burden, and Burden declares none, so the chain ends. */
  lemma BcutChainWellFormed(d: Desc)
    requires WellFormed(d) && d.kind in {BurdenEigenValues, BCUT}
    ensures forall key :: key in DependenciesOf(d).value ==>
              && DependenciesOf(d).value[key].On?
              && WellFormed(DependenciesOf(d).value[key].d)
              && DependenciesOf(d).value[key].d.kind in {Burden, BurdenEigenValues}
    ensures d.kind == BCUT ==> DependenciesOf(DependenciesOf(d).value["bev"].d) == Some(Bcut.BevDependencies())
    ensures DependenciesOf(Bcut.BurdenDesc) == None
  {
  }
}
