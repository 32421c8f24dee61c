/** The chemistry toolkit the pipeline calls (RDKit and rxn-chemutils),
    seen only through the operations it offers. Molecular graphs,
    canonical ordering and SMILES grammar are not modelled: the parser,
    the writer and the graph operations are function-valued fields of a
    `Toolkit` that every caller receives as a parameter. */
module Chemistry {
  import opened Wrappers
  import opened Seqs

  /** An atom: its atomic number and its optional atom-map number
      (the `molAtomMapNumber` property, a decimal string). */
  datatype Atom = Atom(atomicNum: nat, mapNumber: Option<string>)

  /** A bond's type as far as the pipeline looks at it: `~` bonds are
      parsed as bonds of unspecified type. */
  datatype BondType = Unspecified | Specified

  datatype Bond = Bond(begin: nat, end: nat, bondType: BondType)

  /** A parsed molecule. */
  datatype Mol = Mol(atoms: seq<Atom>, bonds: seq<Bond>)

  /** The foreign operations, each a total function:
      - `molFromSmiles`: `Chem.MolFromSmiles`, `None` when RDKit rejects the string;
      - `molToSmiles`: `Chem.MolToSmiles`;
      - `fragmentOnBonds`: `Chem.FragmentOnBonds` on the given bond indices,
        `None` when it raises;
      - `removeStereochemistry`: `Chem.RemoveStereochemistry`;
      - `canonicalise`, `removeMapping`: the two rxn-chemutils round trips
        of the cleaning script, each returning a reaction string or an
        `"Error: ..."` string (they catch every exception themselves). */
  datatype Toolkit = Toolkit(
    molFromSmiles: string -> Option<Mol>,
    molToSmiles: Mol -> string,
    fragmentOnBonds: (Mol, seq<nat>) -> Option<Mol>,
    removeStereochemistry: Mol -> Mol,
    canonicalise: string -> string,
    removeMapping: string -> string)

  /** An atom heavier than hydrogen. */
  predicate IsHeavyAtom(a: Atom) { a.atomicNum > 1 }

  /** `CalcNumHeavyAtoms`: the number of explicit atoms heavier than
      hydrogen. */
  function HeavyAtomCount(atoms: seq<Atom>): (n: nat)
    ensures n == |Filter(atoms, IsHeavyAtom)|
    ensures n <= |atoms|
  {
    if atoms == [] then 0
    else (if atoms[0].atomicNum > 1 then 1 else 0) + HeavyAtomCount(atoms[1..])
  }

  /** `mol.HasSubstructMatch(Chem.MolFromSmarts("[#6]"))`: some atom is carbon. */
  predicate HasCarbon(m: Mol)
  {
    exists i :: 0 <= i < |m.atoms| && m.atoms[i].atomicNum == 6
  }

  /** The indices of the bonds of unspecified type, in bond order (the
      `tilde_list` of `untangle_tildes`). */
  function UnspecifiedBonds(bonds: seq<Bond>): (r: seq<nat>)
    ensures forall k :: 0 <= k < |r| ==> r[k] < |bonds| && bonds[r[k]].bondType == Unspecified
    ensures forall i :: 0 <= i < |bonds| && bonds[i].bondType == Unspecified ==> i in r
    ensures forall k, l :: 0 <= k < l < |r| ==> r[k] < r[l]
  {
    if bonds == [] then []
    else
      var last := |bonds| - 1;
      var init := UnspecifiedBonds(bonds[..last]);
      if bonds[last].bondType == Unspecified then init + [last] else init
  }
}
