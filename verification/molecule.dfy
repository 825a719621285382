/**
 * The part of an RDKit molecule the modelled descriptors read: the atom
 * count, the bonds with their end-atom indices and optional bond order
 * (`GetBondTypeAsDouble` failing is `None`), and each atom's degree.
 */
module Molecules {
  import opened Numeric

  datatype Bond = Bond(begin: nat, end: nat, order: Option<real>)

  datatype Mol = Mol(numAtoms: nat, bonds: seq<Bond>, degree: seq<nat>)

  /** Every bond joins two atoms of the molecule and every atom has a degree. */
  predicate Valid(m: Mol)
  {
    && |m.degree| == m.numAtoms
    && forall k :: 0 <= k < |m.bonds| ==> m.bonds[k].begin < m.numAtoms && m.bonds[k].end < m.numAtoms
  }
}
