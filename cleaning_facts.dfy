/** Properties of the per-reaction cleaning steps. */
module CleaningFacts {
  import opened Wrappers
  import opened Text
  import opened Seqs
  import opened Chemistry
  import opened Cleaning

  /** A string with two roles has a `>`. */
  lemma TwoRolesHaveArrow(rxnMap: string)
    requires |Split(rxnMap, ">>")| >= 2
    ensures '>' in rxnMap
  {
    SplitSeveralContains(rxnMap, ">>");
    ContainsOccurs(rxnMap, ">>");
    var i :| OccursAt(rxnMap, ">>", i);
    assert rxnMap[i..i + 2][0] == rxnMap[i];
  }

  /** A string with two roles is none of the error sentinels. */
  lemma NotASentinel(rxnMap: string)
    requires |Split(rxnMap, ">>")| >= 2
    ensures rxnMap != TooManyReactants && rxnMap != InvalidProduct && rxnMap != TooManyProducts
    ensures rxnMap != ProductSmilesError && rxnMap != NoOrganicProduct && rxnMap != ProductInReactantsError
  {
    TwoRolesHaveArrow(rxnMap);
    ArrowIsNoSentinel(rxnMap);
  }

  /** A string with a `>` is none of the error sentinels. */
  lemma ArrowIsNoSentinel(s: string)
    requires '>' in s
    ensures s != TooManyReactants && s != InvalidProduct && s != TooManyProducts
    ensures s != ProductSmilesError && s != NoOrganicProduct && s != ProductInReactantsError
  {
  }

  /** `untangle_tildes` raises exactly when the string has fewer than two `>`. */
  lemma UntangledDefined(tk: Toolkit, rxnMap: string)
    ensures Untangled(tk, rxnMap).Some? <==> CountChar(rxnMap, '>') >= 2
  {
    SplitCount(rxnMap, '>');
  }

  /** No role keeps a `~` after untangling. */
  lemma UntangleSideAvoids(tk: Toolkit, side: string)
    ensures '~' !in UntangleSide(tk, side)
  {
    var mols := Split(side, ".");
    var parts := seq(|mols|, k requires 0 <= k < |mols| => UntangleCompound(tk, mols[k]));
    forall p | p in parts
      ensures '~' !in p
    {
      var k :| 0 <= k < |parts| && parts[k] == p;
    }
    JoinAvoids(parts, ".", '~');
  }

  /** The untangled reaction has no `~` left. */
  lemma UntangledHasNoTildes(tk: Toolkit, rxnMap: string)
    ensures Untangled(tk, rxnMap).Some? ==> '~' !in Untangled(tk, rxnMap).value
  {
    var sides := Split(rxnMap, ">");
    if |sides| >= 3 {
      UntangleSideAvoids(tk, sides[0]);
      UntangleSideAvoids(tk, sides[1]);
      UntangleSideAvoids(tk, sides[2]);
    }
  }

  /** A role without `~` is left as it is. */
  lemma UntangleSideIdentity(tk: Toolkit, side: string)
    requires '~' !in side
    ensures UntangleSide(tk, side) == side
  {
    var mols := Split(side, ".");
    SplitPiecesFrom(side, ".");
    var parts := seq(|mols|, k requires 0 <= k < |mols| => UntangleCompound(tk, mols[k]));
    forall k | 0 <= k < |mols|
      ensures parts[k] == mols[k]
    {
      assert mols[k] in mols;
    }
    assert parts == mols;
    JoinSplit(side, ".");
  }

  /** A three-role reaction without `~` comes out of untangling unchanged. */
  lemma UntangledIdentity(tk: Toolkit, rxnMap: string)
    requires '~' !in rxnMap && CountChar(rxnMap, '>') == 2
    ensures Untangled(tk, rxnMap) == Some(rxnMap)
  {
    var sides := Split(rxnMap, ">");
    SplitCount(rxnMap, '>');
    SplitPiecesFrom(rxnMap, ">");
    assert sides[0] in sides && sides[1] in sides && sides[2] in sides;
    UntangleSideIdentity(tk, sides[0]);
    UntangleSideIdentity(tk, sides[1]);
    UntangleSideIdentity(tk, sides[2]);
    assert sides == [sides[0], sides[1], sides[2]];
    JoinSplit(rxnMap, ">");
    JoinThree(sides[0], sides[1], sides[2], ">");
  }

  /** Without `>>`, `join_reactants_reagents` raises exactly when the
      string has fewer than two `>`. */
  lemma JoinReactantsReagentsDefined(rxnMap: string)
    ensures JoinReactantsReagents(rxnMap).None? <==> !Contains(rxnMap, ">>") && CountChar(rxnMap, '>') < 2
  {
    SplitCount(rxnMap, '>');
  }

  /** On a reaction `R>A>P` whose reagents `A` are not empty, the result
      has two roles, the reactants and reagents together and the product,
      and its only two `>` are the adjacent pair between them. */
  lemma JoinReactantsReagentsRoles(rxnMap: string)
    requires !Contains(rxnMap, ">>") && CountChar(rxnMap, '>') == 2
    ensures JoinReactantsReagents(rxnMap).Some?
    ensures Split(JoinReactantsReagents(rxnMap).value, ">>") ==
            [Split(rxnMap, ">")[0] + "." + Split(rxnMap, ">")[1], Split(rxnMap, ">")[2]]
    ensures CountChar(JoinReactantsReagents(rxnMap).value, '>') == 2
    ensures Contains(JoinReactantsReagents(rxnMap).value, ">>")
  {
    var roles := Split(rxnMap, ">");
    SplitCount(rxnMap, '>');
    SplitPiecesAvoid(rxnMap, '>');
    assert roles[0] in roles && roles[1] in roles && roles[2] in roles;
    NotContainsWithoutFirst(roles[2], ">>");
    var x := roles[0] + "." + roles[1];
    SplitInTwo(x, ">>", roles[2]);
    var out := x + ">>" + roles[2];
    assert multiset(out) == multiset(x) + multiset(">>") + multiset(roles[2]);
    assert multiset(x)['>'] == 0 && multiset(roles[2])['>'] == 0;
    assert OccursAt(out, ">>", |x|);
    ContainsOccurs(out, ">>");
  }

  /** `remove_fragment_info` is idempotent. */
  lemma RemoveFragmentInfoIdempotent(rxnMap: string)
    ensures RemoveFragmentInfo(RemoveFragmentInfo(rxnMap)) == RemoveFragmentInfo(rxnMap)
  {
    var r := RemoveFragmentInfo(rxnMap);
    ContainsChar(r, ' ');
    SplitNoSep(r, " ");
  }

  /** A map-number tag `:<digits>]` whose digits are `d` starts at index `i` of `s`. */
  predicate MapTagAt(s: string, i: int, d: string)
  {
    0 <= i && |d| > 0 && i + |d| + 2 <= |s| &&
    s[i] == ':' && s[i + 1..i + 1 + |d|] == d && s[i + 1 + |d|] == ']' &&
    forall k :: 0 <= k < |d| ==> IsDigit(d[k])
  }

  /** A tag at the start of `s` is the one `MapNumbers` reads there. */
  lemma TagAtHead(s: string, d: string)
    requires MapTagAt(s, 0, d)
    ensures DigitRunLength(s[1..]) == |d| && |d| + 1 < |s| && s[|d| + 1] == ']' && s[1..|d| + 1] == d
  {
    var t := s[1..];
    assert forall k :: 0 <= k < |d| ==> t[k] == d[k];
    assert t[|d|] == ']';
  }

  /** A tag in the tail of `s` is a tag of `s`, one position further on. */
  lemma TagShift(s: string, j: int, d: string)
    requires s != [] && MapTagAt(s[1..], j, d)
    ensures MapTagAt(s, j + 1, d)
  {
    assert s[j + 2..j + 2 + |d|] == s[1..][j + 1..j + 1 + |d|];
  }

  /** A tag of `s` past its first character is a tag of the tail. */
  lemma TagUnshift(s: string, i: int, d: string)
    requires i > 0 && MapTagAt(s, i, d)
    ensures MapTagAt(s[1..], i - 1, d)
  {
    assert s[1..][i..i + |d|] == s[i + 1..i + 1 + |d|];
  }

  /** The map numbers found in `s` are exactly the digit strings of its tags. */
  lemma {:induction false} MapNumbersSpec(s: string, d: string)
    ensures d in MapNumbers(s) <==> exists i :: MapTagAt(s, i, d)
    decreases |s|
  {
    if s != [] {
      var t := s[1..];
      MapNumbersSpec(t, d);
      var n := DigitRunLength(t);
      var tag := s[0] == ':' && n > 0 && n + 1 < |s| && s[n + 1] == ']';
      if d in MapNumbers(s) {
        if tag && d == s[1..n + 1] {
          assert MapTagAt(s, 0, d);
        } else {
          var j :| MapTagAt(t, j, d);
          TagShift(s, j, d);
        }
      }
      if exists i :: MapTagAt(s, i, d) {
        var i :| MapTagAt(s, i, d);
        if i == 0 {
          TagAtHead(s, d);
        } else {
          TagUnshift(s, i, d);
        }
      }
    }
  }

  /** Demapping keeps every atom and its element, clears exactly the map
      numbers the product lacks, and does not change whether the molecule
      is used. */
  lemma DemapSpec(m: Mol, maps: set<string>)
    ensures |Demap(m, maps).atoms| == |m.atoms| && Demap(m, maps).bonds == m.bonds
    ensures forall i :: 0 <= i < |m.atoms| ==> Demap(m, maps).atoms[i].atomicNum == m.atoms[i].atomicNum
    ensures forall i :: 0 <= i < |m.atoms| && Demap(m, maps).atoms[i].mapNumber.Some? ==>
              Demap(m, maps).atoms[i].mapNumber.value in maps
    ensures forall i :: 0 <= i < |m.atoms| && m.atoms[i].mapNumber.Some? && m.atoms[i].mapNumber.value in maps ==>
              Demap(m, maps).atoms[i].mapNumber == m.atoms[i].mapNumber
    ensures forall i :: 0 <= i < |m.atoms| && m.atoms[i].mapNumber.None? ==> Demap(m, maps).atoms[i].mapNumber.None?
    ensures Used(Demap(m, maps), maps) == Used(m, maps)
  {
    var d := Demap(m, maps);
    if Used(m, maps) {
      var i :| 0 <= i < |m.atoms| && m.atoms[i].mapNumber.Some? && m.atoms[i].mapNumber.value in maps;
      assert d.atoms[i] == m.atoms[i];
    }
    if Used(d, maps) {
      var i :| 0 <= i < |d.atoms| && d.atoms[i].mapNumber.Some? && d.atoms[i].mapNumber.value in maps;
      assert d.atoms[i] == m.atoms[i];
    }
  }

  /** The reactants kept by `remove_reagents` are a selection of the
      original ones in their order: exactly those that parse and share a
      map number with the product. */
  lemma SurvivingSpec(tk: Toolkit, reactants: seq<string>, maps: set<string>)
    ensures IsSubseq(Surviving(tk, reactants, maps), reactants)
    ensures forall k :: 0 <= k < |reactants| ==>
              (reactants[k] in Surviving(tk, reactants, maps) <==> Keeps(tk, reactants[k], maps))
  {
    FilterSubseq(reactants, (s: string) => Keeps(tk, s, maps));
  }

  /** The rewritten reactants have no `>` when the toolkit never writes one. */
  lemma ReducedAvoidsArrow(tk: Toolkit, kept: seq<string>, maps: set<string>)
    requires forall k :: 0 <= k < |kept| ==> Keeps(tk, kept[k], maps)
    requires forall m :: '>' !in tk.molToSmiles(m)
    ensures '>' !in Join(ReducedAll(tk, kept, maps), ".")
  {
    var reduced := ReducedAll(tk, kept, maps);
    forall p | p in reduced
      ensures '>' !in p
    {
      var k :| 0 <= k < |reduced| && reduced[k] == p;
    }
    JoinAvoids(reduced, ".", '>');
  }

  /** When the toolkit never writes `>` inside a molecule, the rewritten
      reaction still has two roles and the product text is untouched. */
  lemma WithoutReagentsKeepsProduct(tk: Toolkit, rxnMap: string)
    requires |Split(rxnMap, ">>")| == 2
    requires forall m :: '>' !in tk.molToSmiles(m)
    ensures WithoutReagents(tk, rxnMap).Some?
    ensures Split(WithoutReagents(tk, rxnMap).value, ">>")[1..] == Split(rxnMap, ">>")[1..]
  {
    var halves := Split(rxnMap, ">>");
    var maps := MapNumbers(halves[1]);
    var kept := Surviving(tk, Split(halves[0], "."), maps);
    ReducedAvoidsArrow(tk, kept, maps);
    SplitPiecesNoSep(rxnMap, ">>");
    assert halves[1] in halves;
    SplitInTwo(Join(ReducedAll(tk, kept, maps), "."), ">>", halves[1]);
    assert halves[1..] == [halves[1]];
  }

  /** `reactant_count_filter` passes exactly the reactions whose reactant
      part has at most three `.`; its `count >= 1` test always holds. */
  lemma ReactantCountByDots(rxnMap: string)
    ensures ReactantCountFilter(rxnMap) ==
            if CountChar(Split(rxnMap, ">>")[0], '.') < 4 then rxnMap else TooManyReactants
  {
    SplitCount(Split(rxnMap, ">>")[0], '.');
  }

  /** `rxn_map.split(">>")[1].split(".")`. */
  function Products(rxnMap: string): seq<string>
    requires |Split(rxnMap, ">>")| >= 2
  {
    Split(Split(rxnMap, ">>")[1], ".")
  }

  /** Several products one of which does not parse: "invalid product",
      whatever the others are. */
  lemma MultiproductUnparsable(tk: Toolkit, rxnMap: string, j: int)
    requires |Split(rxnMap, ">>")| >= 2 && |Products(rxnMap)| > 1
    requires 0 <= j < |Products(rxnMap)| && tk.molFromSmiles(Products(rxnMap)[j]).None?
    ensures MultiproductFixer(tk, rxnMap) == Some(InvalidProduct)
  {
    assert !AllParse(tk, Products(rxnMap));
  }

  /** Several products, all parsed, exactly one of them heavy: the
      reaction keeps that product alone. */
  lemma MultiproductKeepsSoleHeavy(tk: Toolkit, rxnMap: string, j: int)
    requires |Split(rxnMap, ">>")| >= 2 && |Products(rxnMap)| > 1
    requires AllParse(tk, Products(rxnMap))
    requires 0 <= j < |Products(rxnMap)| && IsHeavy(tk, Products(rxnMap)[j])
    requires forall k :: 0 <= k < |Products(rxnMap)| && k != j ==> !IsHeavy(tk, Products(rxnMap)[k])
    ensures MultiproductFixer(tk, rxnMap) == Some(Split(rxnMap, ">>")[0] + ">>" + Products(rxnMap)[j])
  {
    FilterOne(Products(rxnMap), (p: string) => IsHeavy(tk, p), j);
  }

  /** Several products and not exactly one heavy one (none, or two at
      different positions): an error, which is "invalid product" when some
      product does not parse. */
  lemma MultiproductRejects(tk: Toolkit, rxnMap: string)
    requires |Split(rxnMap, ">>")| >= 2 && |Products(rxnMap)| > 1
    requires (forall j :: 0 <= j < |Products(rxnMap)| ==> !IsHeavy(tk, Products(rxnMap)[j])) ||
             (exists j, k :: 0 <= j < k < |Products(rxnMap)| &&
                IsHeavy(tk, Products(rxnMap)[j]) && IsHeavy(tk, Products(rxnMap)[k]))
    ensures MultiproductFixer(tk, rxnMap) ==
            Some(if AllParse(tk, Products(rxnMap)) then TooManyProducts else InvalidProduct)
  {
    var halves := Split(rxnMap, ">>");
    var products := Products(rxnMap);
    NotOneHeavy(tk, products);
    assert products == Split(halves[1], ".");
    assert MultiproductFixer(tk, rxnMap) == Some(SeveralProducts(tk, halves[0], products));
  }

  /** No heavy product, or two at different positions: the mask does not
      select exactly one. */
  lemma NotOneHeavy(tk: Toolkit, products: seq<string>)
    requires (forall j :: 0 <= j < |products| ==> !IsHeavy(tk, products[j])) ||
             (exists j, k :: 0 <= j < k < |products| && IsHeavy(tk, products[j]) && IsHeavy(tk, products[k]))
    ensures |Filter(products, (p: string) => IsHeavy(tk, p))| != 1
  {
    var heavy := (p: string) => IsHeavy(tk, p);
    if exists j, k :: 0 <= j < k < |products| && IsHeavy(tk, products[j]) && IsHeavy(tk, products[k]) {
      var j, k :| 0 <= j < k < |products| && IsHeavy(tk, products[j]) && IsHeavy(tk, products[k]);
      FilterTwo(products, heavy, j, k);
    } else {
      FilterNone(products, heavy);
    }
  }


  /** With one product, the reaction passes exactly when that product parses. */
  lemma MultiproductSingle(tk: Toolkit, rxnMap: string)
    requires |Split(rxnMap, ">>")| >= 2 && |Products(rxnMap)| == 1
    ensures MultiproductFixer(tk, rxnMap) == Some(rxnMap) <==> tk.molFromSmiles(Split(rxnMap, ">>")[1]).Some?
    ensures MultiproductFixer(tk, rxnMap) != Some(rxnMap) ==> MultiproductFixer(tk, rxnMap) == Some(ProductSmilesError)
  {
    var product := Split(rxnMap, ">>")[1];
    SplitPiecesNoSep(product, ".");
    JoinSplit(product, ".");
    NotASentinel(rxnMap);
  }

  /** When the product text has `@` and the reactant text has none, the
      product text occurs in `r + ">>" + p` at no position before its own:
      each earlier window would put an `@` of `p` on a character of `r` or
      of the `>>`. */
  lemma NoMatchBeforeProduct(r: string, p: string)
    requires '@' in p && '@' !in r
    ensures forall i :: 0 <= i < |r + ">>"| ==> !OccursAt(r + ">>" + p + "", p, i)
  {
    var x := r + ">>";
    var s := x + p + "";
    var k0 := FirstIndex(p, '@');
    forall i | 0 <= i < |x|
      ensures !OccursAt(s, p, i)
    {
      assert s[i + k0] != '@' by {
        if i + k0 < |r| {
          assert s[i + k0] == r[i + k0];
          assert r[i + k0] in r;
        } else if i + k0 < |x| {
          assert s[i + k0] == '>';
        } else {
          assert s[i + k0] == p[i + k0 - |x|];
        }
      }
      if i + |p| <= |s| {
        assert s[i..i + |p|][k0] == s[i + k0];
      }
    }
  }

  /** On a two-role reaction whose product has `@` and whose reactants have
      none, only the product text is rewritten: the replacement of the
      product string cannot match inside the reactants or the `>>`. */
  lemma RemoveStereoalchemyRewritesProduct(tk: Toolkit, rxn: string, pMol: Mol)
    requires |Split(rxn, ">>")| == 2
    requires '@' in Split(rxn, ">>")[1] && '@' !in Split(rxn, ">>")[0]
    requires tk.molFromSmiles(Split(rxn, ">>")[1]) == Some(pMol)
    ensures RemoveStereoalchemy(tk, rxn) ==
            Some(Split(rxn, ">>")[0] + ">>" + tk.molToSmiles(tk.removeStereochemistry(pMol)))
  {
    var halves := Split(rxn, ">>");
    var r, p := halves[0], halves[1];
    JoinSplit(rxn, ">>");
    assert halves[1..] == [p];
    assert r + ">>" + p == rxn;
    NoMatchBeforeProduct(r, p);
    ReplaceAtEnd(r + ">>", p, tk.molToSmiles(tk.removeStereochemistry(pMol)));
  }

  /** `product_in_reactants` gives its sentinel exactly when the product
      text equals one of the reactant texts, and otherwise keeps the
      reaction (which, having two roles, is never that sentinel). */
  lemma ProductInReactantsSpec(rxnMap: string)
    requires |Split(rxnMap, ">>")| >= 2
    ensures (exists k :: 0 <= k < |Split(Split(rxnMap, ">>")[0], ".")| &&
              Split(Split(rxnMap, ">>")[0], ".")[k] == Split(rxnMap, ">>")[1]) ==>
            ProductInReactants(rxnMap) == Some(ProductInReactantsError)
    ensures (forall k :: 0 <= k < |Split(Split(rxnMap, ">>")[0], ".")| ==>
              Split(Split(rxnMap, ">>")[0], ".")[k] != Split(rxnMap, ">>")[1]) ==>
            ProductInReactants(rxnMap) == Some(rxnMap)
  {
  }
}
