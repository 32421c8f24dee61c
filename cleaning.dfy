/** The per-reaction steps of the cleaning script (preprocessing/2_cleaning.py).
    Each step maps one reaction string to one string: the rewritten
    reaction, or a sentinel that starts with "Error: ". A step whose
    Python code would raise (for instance `split(">>")[1]` on a string
    without `>>`) returns `None`. */
module Cleaning {
  import opened Wrappers
  import opened Text
  import opened Seqs
  import opened Chemistry

  const TooManyReactants := "Error: too many reactants"
  const InvalidProduct := "Error: invalid product"
  const TooManyProducts := "Error: too many products"
  const ProductSmilesError := "Error: product smiles error"
  const NoOrganicProduct := "Error: no organic product"
  const ProductInReactantsError := "Error: product in reactants"

  // ---------------------------------------------------------------------
  // untangle_tildes

  /** Number of leading decimal digits of `s`. */
  function DigitRunLength(s: string): (n: nat)
    ensures n <= |s|
    ensures forall k :: 0 <= k < n ==> IsDigit(s[k])
    ensures n < |s| ==> !IsDigit(s[n])
  {
    if s != [] && IsDigit(s[0]) then 1 + DigitRunLength(s[1..]) else 0
  }

  /** `s` starts with a dummy-atom label `[<digits>*]` of `m` characters. */
  predicate DummyLabelAt(s: string, m: int)
  {
    4 <= m <= |s| && s[0] == '[' && s[m - 2] == '*' && s[m - 1] == ']' &&
    forall k :: 1 <= k < m - 2 ==> IsDigit(s[k])
  }

  /** Length of the dummy-atom label `[<digits>*]` at the start of `s`, or
      0 when `s` does not start with one. */
  function DummyLabelLength(s: string): (n: nat)
    ensures n == 0 || DummyLabelAt(s, n)
    ensures forall m :: DummyLabelAt(s, m) ==> m == n
  {
    if |s| > 0 && s[0] == '[' then
      var d := DigitRunLength(s[1..]);
      if d > 0 && d + 2 < |s| && s[d + 1] == '*' && s[d + 2] == ']' then d + 3 else 0
    else 0
  }

  /** `re.sub(r'\[\d+\*\]', '', s)`: drop every dummy-atom label. */
  function StripDummyLabels(s: string): string
    decreases |s|
  {
    if s == [] then []
    else if DummyLabelLength(s) > 0 then StripDummyLabels(s[DummyLabelLength(s)..])
    else [s[0]] + StripDummyLabels(s[1..])
  }

  /** The text clean-up applied to the SMILES of the fragmented molecule. */
  function Tidy(smiles: string): (r: string)
    ensures '~' !in r && '*' !in r
  {
    var noLabels := StripDummyLabels(smiles);
    var noTildes := Replace(noLabels, "~", "");
    ReplaceCharAvoids(noLabels, '~', "");
    var noStars := Replace(noTildes, "*", "");
    ReplaceAvoids(noTildes, "*", "", '~');
    ReplaceCharAvoids(noTildes, '*', "");
    ReplaceAvoids(noStars, "()", "", '~');
    ReplaceAvoids(noStars, "()", "", '*');
    Replace(noStars, "()", "")
  }

  /** One compound of `untangle_tildes`: a compound without `~` is kept;
      otherwise it is parsed and fragmented on its unspecified bonds, and
      when anything in that fails its `~` marks become compound separators. */
  function UntangleCompound(tk: Toolkit, mol: string): (r: string)
    ensures '~' !in r
  {
    if '~' !in mol then mol
    else
      ReplaceCharAvoids(mol, '~', ".");
      match tk.molFromSmiles(mol)
      case None => Replace(mol, "~", ".")
      case Some(m) =>
        match tk.fragmentOnBonds(m, UnspecifiedBonds(m.bonds))
        case None => Replace(mol, "~", ".")
        case Some(f) => Tidy(tk.molToSmiles(f))
  }

  /** One role of the reaction, compound by compound. */
  function UntangleSide(tk: Toolkit, side: string): string
  {
    var mols := Split(side, ".");
    Join(seq(|mols|, k requires 0 <= k < |mols| => UntangleCompound(tk, mols[k])), ".")
  }

  /** `untangle_tildes`: every role untangled and the first three rejoined
      with `>`; raises when the string has fewer than three roles. */
  function Untangled(tk: Toolkit, rxnMap: string): Option<string>
  {
    var sides := Split(rxnMap, ">");
    if |sides| < 3 then None
    else Some(UntangleSide(tk, sides[0]) + ">" + UntangleSide(tk, sides[1]) + ">" + UntangleSide(tk, sides[2]))
  }

  // ---------------------------------------------------------------------
  // join_reactants_reagents, remove_fragment_info

  /** `join_reactants_reagents`: a string that already has `>>` is kept;
      otherwise the reagents are appended to the reactants. */
  function JoinReactantsReagents(rxnMap: string): (r: Option<string>)
    ensures Contains(rxnMap, ">>") ==> r == Some(rxnMap)
  {
    if Contains(rxnMap, ">>") then Some(rxnMap)
    else
      var rxn := Split(rxnMap, ">");
      if |rxn| < 3 then None else Some(rxn[0] + "." + rxn[1] + ">>" + rxn[2])
  }

  /** `remove_fragment_info`: the text before the first space. */
  function RemoveFragmentInfo(rxnMap: string): (r: string)
    ensures r <= rxnMap && ' ' !in r
    ensures |r| < |rxnMap| ==> rxnMap[|r|] == ' '
  {
    SplitFirst(rxnMap, ' ');
    Split(rxnMap, " ")[0]
  }

  // ---------------------------------------------------------------------
  // remove_reagents

  /** The atom-map numbers of a product: every `<digits>` matched by the
      regular expression `:([0-9]+)\]`. */
  function MapNumbers(s: string): set<string>
    decreases |s|
  {
    if s == [] then {}
    else
      var d := DigitRunLength(s[1..]);
      if s[0] == ':' && d > 0 && d + 1 < |s| && s[d + 1] == ']'
      then {s[1..d + 1]} + MapNumbers(s[1..])
      else MapNumbers(s[1..])
  }

  /** Some atom of `m` carries a map number that the product also carries. */
  predicate Used(m: Mol, maps: set<string>)
  {
    exists i :: 0 <= i < |m.atoms| && m.atoms[i].mapNumber.Some? && m.atoms[i].mapNumber.value in maps
  }

  /** The atom with its map number cleared unless the product carries it. */
  function DemapAtom(a: Atom, maps: set<string>): Atom
  {
    if a.mapNumber.Some? && a.mapNumber.value !in maps then a.(mapNumber := None) else a
  }

  /** `m` with every map number that the product lacks cleared. */
  function Demap(m: Mol, maps: set<string>): Mol
  {
    m.(atoms := seq(|m.atoms|, i requires 0 <= i < |m.atoms| => DemapAtom(m.atoms[i], maps)))
  }

  /** A reactant survives `remove_reagents`: it parses and is used. */
  predicate Keeps(tk: Toolkit, smiles: string, maps: set<string>)
  {
    tk.molFromSmiles(smiles).Some? && Used(tk.molFromSmiles(smiles).value, maps)
  }

  /** The SMILES written for a surviving reactant. */
  function Reduced(tk: Toolkit, smiles: string, maps: set<string>): string
    requires Keeps(tk, smiles, maps)
  {
    tk.molToSmiles(Demap(tk.molFromSmiles(smiles).value, maps))
  }

  /** The reactants that survive, in their original order. */
  function Surviving(tk: Toolkit, reactants: seq<string>, maps: set<string>): seq<string>
  {
    Filter(reactants, (s: string) => Keeps(tk, s, maps))
  }

  /** The rewritten reactants. */
  function ReducedAll(tk: Toolkit, kept: seq<string>, maps: set<string>): seq<string>
    requires forall k :: 0 <= k < |kept| ==> Keeps(tk, kept[k], maps)
  {
    seq(|kept|, k requires 0 <= k < |kept| => Reduced(tk, kept[k], maps))
  }

  /** `remove_reagents`: drop the reactants that do not parse or share no
      map number with the product, clear the other map numbers of the
      rest, and keep the product text. */
  function WithoutReagents(tk: Toolkit, rxnMap: string): Option<string>
  {
    var halves := Split(rxnMap, ">>");
    if |halves| < 2 then None
    else
      var maps := MapNumbers(halves[1]);
      var kept := Surviving(tk, Split(halves[0], "."), maps);
      Some(Join(ReducedAll(tk, kept, maps), ".") + ">>" + halves[1])
  }

  // ---------------------------------------------------------------------
  // reactant_count_filter, multiproduct_fixer, no_carbon

  /** `reactant_count_filter`: at most four `.`-separated reactants. */
  function ReactantCountFilter(rxnMap: string): string
  {
    var count := |Split(Split(rxnMap, ">>")[0], ".")|;
    if count < 5 && count >= 1 then rxnMap else TooManyReactants
  }

  /** The product parses and has more than five heavy atoms. */
  predicate IsHeavy(tk: Toolkit, smiles: string)
  {
    tk.molFromSmiles(smiles).Some? && HeavyAtomCount(tk.molFromSmiles(smiles).value.atoms) > 5
  }

  /** Every compound parses. */
  predicate AllParse(tk: Toolkit, compounds: seq<string>)
  {
    forall k :: 0 <= k < |compounds| ==> tk.molFromSmiles(compounds[k]).Some?
  }

  /** `multiproduct_fixer`. */
  /** The several-products branch of `multiproduct_fixer`: an error when a
      product does not parse, otherwise the reactants with the one heavy
      product, or an error when there is not exactly one. */
  function SeveralProducts(tk: Toolkit, reactants: string, products: seq<string>): string
  {
    if !AllParse(tk, products) then InvalidProduct
    else
      var newProds := Filter(products, (p: string) => IsHeavy(tk, p));
      if |newProds| == 1 then reactants + ">>" + newProds[0] else TooManyProducts
  }

  function MultiproductFixer(tk: Toolkit, rxnMap: string): Option<string>
  {
    var halves := Split(rxnMap, ">>");
    if |halves| < 2 then None
    else
      var products := Split(halves[1], ".");
      if |products| > 1 then Some(SeveralProducts(tk, halves[0], products))
      else if tk.molFromSmiles(products[0]).Some? then Some(rxnMap)
      else Some(ProductSmilesError)
  }

  /** `no_carbon`: raises when the product does not parse. */
  function NoCarbon(tk: Toolkit, rxnMap: string): (r: Option<string>)
    ensures r.Some? ==> |Split(rxnMap, ">>")| >= 2 && tk.molFromSmiles(Split(rxnMap, ">>")[1]).Some?
    ensures r.Some? ==>
      (r.value == rxnMap <==> HasCarbon(tk.molFromSmiles(Split(rxnMap, ">>")[1]).value)) &&
      (r.value != rxnMap ==> r.value == NoOrganicProduct)
  {
    var halves := Split(rxnMap, ">>");
    if |halves| < 2 then None
    else
      match tk.molFromSmiles(halves[1])
      case None => None
      case Some(mol) =>
        if HasCarbon(mol) then Some(rxnMap)
        else
          NoSentinelHasTwoRoles(NoOrganicProduct);
          Some(NoOrganicProduct)
  }

  /** A string without `>` is never split into two roles. */
  lemma NoSentinelHasTwoRoles(s: string)
    requires '>' !in s
    ensures |Split(s, ">>")| == 1
  {
    NotContainsWithoutFirst(s, ">>");
    SplitNoSep(s, ">>");
  }

  // ---------------------------------------------------------------------
  // remove_stereoalchemy, product_in_reactants, size_filter

  /** `remove_stereoalchemy`: when the product has `@` and the reactants
      have none, the product's stereochemistry is removed and its text
      replaced (by `str.replace`) in the whole reaction. */
  function RemoveStereoalchemy(tk: Toolkit, rxn: string): Option<string>
  {
    var halves := Split(rxn, ">>");
    if |halves| < 2 then None
    else
      var r, p := halves[0], halves[1];
      if '@' in p && '@' !in r then
        match tk.molFromSmiles(p)
        case None => None
        case Some(pMol) => Some(Replace(rxn, p, tk.molToSmiles(tk.removeStereochemistry(pMol))))
      else Some(rxn)
  }

  /** `product_in_reactants`. */
  function ProductInReactants(rxnMap: string): Option<string>
  {
    var halves := Split(rxnMap, ">>");
    if |halves| < 2 then None
    else if halves[1] in Split(halves[0], ".") then Some(ProductInReactantsError)
    else Some(rxnMap)
  }

  /** `size_filter`: the reaction is longer than 512 characters. */
  predicate TooLong(rxn: string)
  {
    |rxn| > 512
  }

  // ---------------------------------------------------------------------
  // The loops of untangle_tildes and remove_reagents

  /** The bond loop of `untangle_tildes`: the indices of the bonds of
      unspecified type, in bond order. */
  method CollectUnspecifiedBonds(m: Mol) returns (tildeList: seq<nat>)
    ensures tildeList == UnspecifiedBonds(m.bonds)
  {
    tildeList := [];
    var i := 0;
    while i < |m.bonds|
      invariant 0 <= i <= |m.bonds|
      invariant tildeList == UnspecifiedBonds(m.bonds[..i])
    {
      assert m.bonds[..i + 1][..i] == m.bonds[..i];
      if m.bonds[i].bondType == Unspecified {
        tildeList := tildeList + [i];
      }
      i := i + 1;
    }
    assert m.bonds[..i] == m.bonds;
  }

  /** One compound of `untangle_tildes`: fragmented on its unspecified
      bonds when it has a `~`, with the fallback when parsing or
      fragmenting fails. */
  method UntangleMolecule(tk: Toolkit, mol: string) returns (smiles: string)
    ensures smiles == UntangleCompound(tk, mol)
  {
    if '~' in mol {
      var mols := tk.molFromSmiles(mol);
      if mols.Some? {
        var tildeList := CollectUnspecifiedBonds(mols.value);
        var fragments := tk.fragmentOnBonds(mols.value, tildeList);
        if fragments.Some? {
          smiles := Tidy(tk.molToSmiles(fragments.value));
        } else {
          smiles := Replace(mol, "~", ".");
        }
      } else {
        smiles := Replace(mol, "~", ".");
      }
    } else {
      smiles := mol;
    }
  }

  /** The compound loop of `untangle_tildes` over one role. */
  method UntangleRole(tk: Toolkit, role: string) returns (newRole: string)
    ensures newRole == UntangleSide(tk, role)
  {
    var side := Split(role, ".");
    var newSide: seq<string> := [];
    var j := 0;
    while j < |side|
      invariant 0 <= j <= |side|
      invariant |newSide| == j
      invariant forall k :: 0 <= k < j ==> newSide[k] == UntangleCompound(tk, side[k])
    {
      var smiles := UntangleMolecule(tk, side[j]);
      newSide := newSide + [smiles];
      j := j + 1;
    }
    assert newSide == seq(|side|, k requires 0 <= k < |side| => UntangleCompound(tk, side[k]));
    newRole := Join(newSide, ".");
  }

  /** `untangle_tildes`, loop by loop: every compound of every role is
      untangled, and the first three roles are rejoined with `>`. */
  method UntangleTildes(tk: Toolkit, rxnMap: string) returns (r: Option<string>)
    ensures r == Untangled(tk, rxnMap)
  {
    var rxn := Split(rxnMap, ">");
    var newRxn: seq<string> := [];
    var i := 0;
    while i < |rxn|
      invariant 0 <= i <= |rxn|
      invariant |newRxn| == i
      invariant forall k :: 0 <= k < i ==> newRxn[k] == UntangleSide(tk, rxn[k])
    {
      var newRole := UntangleRole(tk, rxn[i]);
      newRxn := newRxn + [newRole];
      i := i + 1;
    }
    if |newRxn| < 3 {
      return None;
    }
    r := Some(newRxn[0] + ">" + newRxn[1] + ">" + newRxn[2]);
  }

  /** The atom loop of `remove_reagents`: walks the atom list, clearing in
      place every map number the product lacks, and reports whether some
      atom kept one. */
  method ClearUnusedMapNumbers(m: Mol, maps: set<string>) returns (cleared: Mol, used: bool)
    ensures cleared == Demap(m, maps)
    ensures used == Used(m, maps)
  {
    var atoms := m.atoms;
    used := false;
    var i := 0;
    while i < |atoms|
      invariant 0 <= i <= |atoms| == |m.atoms|
      invariant forall k :: 0 <= k < i ==> atoms[k] == DemapAtom(m.atoms[k], maps)
      invariant forall k :: i <= k < |atoms| ==> atoms[k] == m.atoms[k]
      invariant used <==> exists k :: 0 <= k < i && m.atoms[k].mapNumber.Some? && m.atoms[k].mapNumber.value in maps
    {
      var a := atoms[i];
      if a.mapNumber.Some? {
        if a.mapNumber.value in maps {
          used := true;
        } else {
          atoms := atoms[i := a.(mapNumber := None)];
        }
      }
      i := i + 1;
    }
    cleared := m.(atoms := atoms);
    assert cleared.atoms == Demap(m, maps).atoms;
  }

  /** One pass of the reactant loop of `remove_reagents`: the rewritten
      SMILES of a reactant that parses and shares a map number with the
      product, or nothing for a reactant that is dropped. */
  method ReduceReactant(tk: Toolkit, smiles: string, maps: set<string>) returns (out: Option<string>)
    ensures out.Some? <==> Keeps(tk, smiles, maps)
    ensures out.Some? ==> Keeps(tk, smiles, maps) && out.value == Reduced(tk, smiles, maps)
  {
    out := None;
    var mol := tk.molFromSmiles(smiles);
    if mol.Some? {
      var cleared, used := ClearUnusedMapNumbers(mol.value, maps);
      if used {
        out := Some(tk.molToSmiles(cleared));
      }
    }
  }

  /** One more reactant adds its rewritten SMILES to the rewritten
      survivors when it survives, and nothing otherwise. */
  lemma ReducedSurvivingSnoc(tk: Toolkit, reactants: seq<string>, x: string, maps: set<string>)
    ensures forall k :: 0 <= k < |Surviving(tk, reactants, maps)| ==> Keeps(tk, Surviving(tk, reactants, maps)[k], maps)
    ensures ReducedAll(tk, Surviving(tk, reactants + [x], maps), maps) ==
            ReducedAll(tk, Surviving(tk, reactants, maps), maps) +
            (if Keeps(tk, x, maps) then [Reduced(tk, x, maps)] else [])
  {
    var p := (s: string) => Keeps(tk, s, maps);
    FilterSnoc(reactants, x, p);
    var before := Surviving(tk, reactants, maps);
    assert forall k :: 0 <= k < |before| ==> before[k] in before;
  }

  /** `remove_reagents`, loop by loop: the reactants that parse and share a
      map number with the product are rewritten, the others dropped. */
  method RemoveReagents(tk: Toolkit, rxnMap: string) returns (r: Option<string>)
    ensures r == WithoutReagents(tk, rxnMap)
  {
    var halves := Split(rxnMap, ">>");
    if |halves| < 2 {
      return None;
    }
    var reactants := Split(halves[0], ".");
    var product := halves[1];
    var productMaps := MapNumbers(product);
    var newReactants: seq<string> := [];
    var i := 0;
    while i < |reactants|
      invariant 0 <= i <= |reactants|
      invariant newReactants == ReducedAll(tk, Surviving(tk, reactants[..i], productMaps), productMaps)
    {
      ReducedSurvivingSnoc(tk, reactants[..i], reactants[i], productMaps);
      assert reactants[..i + 1] == reactants[..i] + [reactants[i]];
      var out := ReduceReactant(tk, reactants[i], productMaps);
      if out.Some? {
        newReactants := newReactants + [out.value];
      }
      i := i + 1;
    }
    assert reactants[..i] == reactants;
    r := Some(Join(newReactants, ".") + ">>" + product);
  }
}
