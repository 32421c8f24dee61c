/** The dataset splits of preprocessing/5_template_splitting.py.

    A table is a sequence of rows of a parameter type `R`; `key` reads the
    column a split groups by ("products" or "template"). Every random
    choice of pandas (`sample` with a fixed `random_state`) is a parameter:
    the shuffled order of the groups, and the per-template samplers of the
    broad split and of the Pistachio test sets. */
module TemplateSplitting {
  import opened Wrappers
  import opened Seqs
  import opened Text

  // ---------------------------------------------------------------------
  // Selecting rows by the value of a column
  // ---------------------------------------------------------------------

  /** No value occurs twice (as in the index of a group-by result). */
  ghost predicate Distinct<T>(xs: seq<T>)
  {
    forall i, j :: 0 <= i < j < |xs| ==> xs[i] != xs[j]
  }

  /** The values of a list, as `isin` reads them. */
  function Elems<T>(xs: seq<T>): set<T>
  {
    set x | x in xs
  }

  /** `x[x[col].isin(keys)]`: the rows whose key is in `keys`, in order. */
  function Select<R>(rows: seq<R>, key: R -> string, keys: set<string>): seq<R>
  {
    if rows == [] then []
    else if key(rows[0]) in keys then [rows[0]] + Select(rows[1..], key, keys)
    else Select(rows[1..], key, keys)
  }

  /** `x[~x[col].isin(keys)]`: the rows whose key is not in `keys`, in order. */
  function Reject<R>(rows: seq<R>, key: R -> string, keys: set<string>): seq<R>
  {
    if rows == [] then []
    else if key(rows[0]) !in keys then [rows[0]] + Reject(rows[1..], key, keys)
    else Reject(rows[1..], key, keys)
  }

  /** `x.groupby(col).size()[t]`: the number of rows with key `t`. */
  function GroupCount<R>(rows: seq<R>, key: R -> string, t: string): nat
  {
    if rows == [] then 0
    else (if key(rows[0]) == t then 1 else 0) + GroupCount(rows[1..], key, t)
  }

  /** The group sizes, listed in the order `order` of the group keys. */
  function GroupCounts<R>(rows: seq<R>, key: R -> string, order: seq<string>): (counts: seq<nat>)
    ensures |counts| == |order|
    ensures forall i :: 0 <= i < |order| ==> counts[i] == GroupCount(rows, key, order[i])
  {
    seq(|order|, i requires 0 <= i < |order| => GroupCount(rows, key, order[i]))
  }

  /** A selection keeps the order of the rows, and keeps a row exactly
      when its key is one of `keys`. */
  lemma {:induction false} SelectSpec<R>(rows: seq<R>, key: R -> string, keys: set<string>)
    ensures IsSubseq(Select(rows, key, keys), rows)
    ensures forall r :: r in Select(rows, key, keys) <==> r in rows && key(r) in keys
  {
    if rows == [] {
      SubseqRefl(rows);
    } else {
      SelectSpec(rows[1..], key, keys);
      var rest := Select(rows[1..], key, keys);
      if key(rows[0]) in keys {
        assert ([rows[0]] + rest)[1..] == rest;
      } else {
        SubseqDropSecond(rest, rows);
      }
      assert rows == [rows[0]] + rows[1..];
    }
  }

  /** The complement keeps a row exactly when its key is not one of `keys`. */
  lemma {:induction false} RejectSpec<R>(rows: seq<R>, key: R -> string, keys: set<string>)
    ensures IsSubseq(Reject(rows, key, keys), rows)
    ensures forall r :: r in Reject(rows, key, keys) <==> r in rows && key(r) !in keys
  {
    if rows == [] {
      SubseqRefl(rows);
    } else {
      RejectSpec(rows[1..], key, keys);
      var rest := Reject(rows[1..], key, keys);
      if key(rows[0]) !in keys {
        assert ([rows[0]] + rest)[1..] == rest;
      } else {
        SubseqDropSecond(rest, rows);
      }
      assert rows == [rows[0]] + rows[1..];
    }
  }

  /** A mask and its negation split the rows between them, each row
      (with its multiplicity) going to exactly one side. */
  lemma {:induction false} SelectRejectPartition<R>(rows: seq<R>, key: R -> string, keys: set<string>)
    ensures multiset(Select(rows, key, keys)) + multiset(Reject(rows, key, keys)) == multiset(rows)
  {
    if rows != [] {
      SelectRejectPartition(rows[1..], key, keys);
      assert rows == [rows[0]] + rows[1..];
    }
  }

  /** Two disjoint masks and the negation of their union split the rows
      three ways. */
  lemma {:induction false} ThreeWayPartition<R>(rows: seq<R>, key: R -> string, a: set<string>, b: set<string>)
    requires a !! b
    ensures multiset(Select(rows, key, a)) + multiset(Select(rows, key, b)) + multiset(Reject(rows, key, a + b))
            == multiset(rows)
  {
    if rows != [] {
      ThreeWayPartition(rows[1..], key, a, b);
      assert rows == [rows[0]] + rows[1..];
    }
  }

  /** A wider mask keeps a supersequence. */
  lemma {:induction false} SelectMonotone<R>(rows: seq<R>, key: R -> string, small: set<string>, large: set<string>)
    requires small <= large
    ensures IsSubseq(Select(rows, key, small), Select(rows, key, large))
  {
    if rows == [] {
    } else {
      SelectMonotone(rows[1..], key, small, large);
      var s, l := Select(rows[1..], key, small), Select(rows[1..], key, large);
      if key(rows[0]) in small {
        assert ([rows[0]] + s)[1..] == s;
        assert ([rows[0]] + l)[1..] == l;
      } else if key(rows[0]) in large {
        SubseqDropSecond(s, [rows[0]] + l);
        assert ([rows[0]] + l)[1..] == l;
      }
    }
  }

  lemma {:induction false} SelectNothing<R>(rows: seq<R>, key: R -> string)
    ensures Select(rows, key, {}) == []
  {
    if rows != [] {
      SelectNothing(rows[1..], key);
    }
  }

  /** Adding one key to the mask adds that key's group to the selection. */
  lemma {:induction false} SelectAddKey<R>(rows: seq<R>, key: R -> string, keys: set<string>, t: string)
    requires t !in keys
    ensures |Select(rows, key, keys + {t})| == |Select(rows, key, keys)| + GroupCount(rows, key, t)
  {
    if rows != [] {
      SelectAddKey(rows[1..], key, keys, t);
    }
  }

  // ---------------------------------------------------------------------
  // Cumulative counts and the greedy scan
  // ---------------------------------------------------------------------

  /** `sum(counts[i:j])`. */
  function SumRange(counts: seq<nat>, i: nat, j: nat): nat
    requires i <= j <= |counts|
    decreases j - i
  {
    if i == j then 0 else SumRange(counts, i, j - 1) + counts[j - 1]
  }

  lemma {:induction false} SumRangeFirst(counts: seq<nat>, i: nat, j: nat)
    requires i < j <= |counts|
    ensures SumRange(counts, i, j) == counts[i] + SumRange(counts, i + 1, j)
    decreases j - i
  {
    if j > i + 1 {
      SumRangeFirst(counts, i, j - 1);
    }
  }

  /** Selecting the groups `order[i..j]` selects as many rows as their
      sizes add up to. */
  lemma {:induction false} SelectRangeCount<R>(rows: seq<R>, key: R -> string, order: seq<string>, i: nat, j: nat)
    requires Distinct(order) && i <= j <= |order|
    ensures |Select(rows, key, Elems(order[i..j]))| == SumRange(GroupCounts(rows, key, order), i, j)
    decreases j - i
  {
    if i == j {
      assert Elems(order[i..j]) == {};
      SelectNothing(rows, key);
    } else {
      SelectRangeCount(rows, key, order, i, j - 1);
      assert order[i..j] == order[i..j - 1] + [order[j - 1]];
      assert Elems(order[i..j]) == Elems(order[i..j - 1]) + {order[j - 1]};
      assert order[j - 1] !in Elems(order[i..j - 1]) by {
        assert forall k :: i <= k < j - 1 ==> order[k] != order[j - 1];
      }
      SelectAddKey(rows, key, Elems(order[i..j - 1]), order[j - 1]);
    }
  }

  /** The loops of the splits walk through the groups from index `i`,
      adding each group's size to the counter `acc`, and stop just after
      the group that takes the counter above `tot`; the result is the index
      where they stop (all groups if the counter never exceeds `tot`). */
  function CutFrom(counts: seq<nat>, i: nat, acc: int, tot: int): (p: nat)
    requires i <= |counts|
    ensures i <= p <= |counts|
    ensures i < |counts| ==> i < p
    decreases |counts| - i
  {
    if i == |counts| then i
    else if acc + counts[i] > tot then i + 1
    else CutFrom(counts, i + 1, acc + counts[i], tot)
  }

  /** The scan stops at the shortest non-empty run of groups from `i` that
      takes the counter above `tot`, or at the end when there is none. */
  lemma {:induction false} CutFromSpec(counts: seq<nat>, i: nat, acc: int, tot: int)
    requires i <= |counts|
    ensures forall q :: i < q < CutFrom(counts, i, acc, tot) ==> acc + SumRange(counts, i, q) <= tot
    ensures CutFrom(counts, i, acc, tot) == |counts| || acc + SumRange(counts, i, CutFrom(counts, i, acc, tot)) > tot
    decreases |counts| - i
  {
    if i < |counts| {
      var p := CutFrom(counts, i, acc, tot);
      if acc + counts[i] > tot {
        assert SumRange(counts, i, i + 1) == counts[i];
      } else {
        CutFromSpec(counts, i + 1, acc + counts[i], tot);
        forall q | i < q < p
          ensures acc + SumRange(counts, i, q) <= tot
        {
          SumRangeFirst(counts, i, q);
        }
        if p < |counts| {
          SumRangeFirst(counts, i, p);
        }
      }
    }
  }

  /** A larger target never stops the scan earlier. */
  lemma {:induction false} CutFromMonotone(counts: seq<nat>, i: nat, acc: int, low: int, high: int)
    requires i <= |counts| && low <= high
    ensures CutFrom(counts, i, acc, low) <= CutFrom(counts, i, acc, high)
    decreases |counts| - i
  {
    if i < |counts| && acc + counts[i] <= low {
      CutFromMonotone(counts, i + 1, acc + counts[i], low, high);
    }
  }

  // ---------------------------------------------------------------------
  // full_dataset_product_split and full_split
  // ---------------------------------------------------------------------

  /** A split into train, val and test tables. */
  datatype Sets<R> = Sets(train: seq<R>, val: seq<R>, test: seq<R>)

  /** Where the test groups end: the scan from the first group. */
  function TestEnd(counts: seq<nat>, tot: int): nat
  {
    CutFrom(counts, 0, 0, tot)
  }

  /** Where the val groups end: the scan restarted, with the counter
      reset to zero, at the first group not in the test set. */
  function ValEnd(counts: seq<nat>, tot: int): nat
  {
    CutFrom(counts, TestEnd(counts, tot), 0, tot)
  }

  /** The test and the val groups of `full_dataset_product_split`, for
      the groups listed in their shuffled order `order`. */
  function TestGroups<R>(data: seq<R>, key: R -> string, order: seq<string>, tot: int): seq<string>
  {
    order[..TestEnd(GroupCounts(data, key, order), tot)]
  }

  function ValGroups<R>(data: seq<R>, key: R -> string, order: seq<string>, tot: int): seq<string>
  {
    var counts := GroupCounts(data, key, order);
    order[TestEnd(counts, tot)..ValEnd(counts, tot)]
  }

  /** The tables `full_dataset_product_split` returns: the rows of the
      test groups, of the val groups, and of neither. */
  function ProductSplit<R>(data: seq<R>, key: R -> string, order: seq<string>, tot: int): Sets<R>
  {
    var testKeys := Elems(TestGroups(data, key, order, tot));
    var valKeys := Elems(ValGroups(data, key, order, tot));
    Sets(Reject(data, key, testKeys + valKeys), Select(data, key, valKeys), Select(data, key, testKeys))
  }

  /** One step of the test phase: the group at `i` is the last test group
      exactly when it takes the counter above `tot`, and the val phase then
      starts at the next group with the counter reset. */
  lemma TestScanStep(counts: seq<nat>, i: nat, acc: int, tot: int)
    requires i < |counts| && CutFrom(counts, i, acc, tot) == TestEnd(counts, tot)
    ensures acc + counts[i] > tot ==> TestEnd(counts, tot) == i + 1 && CutFrom(counts, i + 1, 0, tot) == ValEnd(counts, tot)
    ensures acc + counts[i] <= tot ==> CutFrom(counts, i + 1, acc + counts[i], tot) == TestEnd(counts, tot)
  {
  }

  /** One step of the val phase, in the same way. */
  lemma ValScanStep(counts: seq<nat>, i: nat, acc: int, tot: int)
    requires i < |counts| && CutFrom(counts, i, acc, tot) == ValEnd(counts, tot)
    ensures acc + counts[i] > tot ==> ValEnd(counts, tot) == i + 1
    ensures acc + counts[i] <= tot ==> CutFrom(counts, i + 1, acc + counts[i], tot) == ValEnd(counts, tot)
  {
  }

  /** The loop of `full_dataset_product_split` over the groups in the
      shuffled order `order`, whose sizes are `counts`: the test groups
      are collected until the counter exceeds `tot`, then, with the counter
      reset, the val groups in the same way. */
  method ScanGroups(order: seq<string>, counts: seq<nat>, tot: int) returns (testProducts: seq<string>, valProducts: seq<string>)
    requires |counts| == |order|
    ensures testProducts == order[..TestEnd(counts, tot)]
    ensures valProducts == order[TestEnd(counts, tot)..ValEnd(counts, tot)]
  {
    var counter := 0;
    testProducts := [];
    valProducts := [];
    var testOn := true;
    var i := 0;
    while i < |counts|
      invariant 0 <= i <= |counts|
      invariant testOn ==> testProducts == order[..i] && valProducts == [] && CutFrom(counts, i, counter, tot) == TestEnd(counts, tot)
      invariant !testOn ==> TestEnd(counts, tot) <= i && testProducts == order[..TestEnd(counts, tot)] &&
                            valProducts == order[TestEnd(counts, tot)..i] && CutFrom(counts, i, counter, tot) == ValEnd(counts, tot)
    {
      var times := counts[i];
      if testOn {
        TestScanStep(counts, i, counter, tot);
        assert order[..i + 1] == order[..i] + [order[i]];
        testProducts := testProducts + [order[i]];
        counter := counter + times;
        if counter > tot {
          testOn := false;
          counter := 0;
        }
      } else {
        ValScanStep(counts, i, counter, tot);
        assert order[TestEnd(counts, tot)..i + 1] == order[TestEnd(counts, tot)..i] + [order[i]];
        valProducts := valProducts + [order[i]];
        counter := counter + times;
        if counter > tot {
          i := i + 1;
          break;
        }
      }
      i := i + 1;
    }
  }

  /** `full_dataset_product_split(data, frac)`, with the groups in the
      shuffled order `order` and the target `tot = round(len(data) * frac)`
      given: the loop first collects test groups until more than `tot` rows
      are collected, then, with the counter reset, val groups in the same
      way, and the masks then select the rows. */
  method FullDatasetProductSplit<R>(data: seq<R>, key: R -> string, order: seq<string>, tot: int)
    returns (sets: Sets<R>)
    ensures sets == ProductSplit(data, key, order, tot)
  {
    var counts := GroupCounts(data, key, order);
    var testProducts, valProducts := ScanGroups(order, counts, tot);
    var testKeys, valKeys := Elems(testProducts), Elems(valProducts);
    sets := Sets(Reject(data, key, testKeys + valKeys), Select(data, key, valKeys), Select(data, key, testKeys));
  }

  /** The test groups come first in the shuffled order and the val groups
      are the run right after them, so no group is in both. */
  lemma TestValDisjoint<R>(data: seq<R>, key: R -> string, order: seq<string>, tot: int)
    requires Distinct(order)
    ensures TestGroups(data, key, order, tot) + ValGroups(data, key, order, tot) <= order
    ensures Elems(TestGroups(data, key, order, tot)) !! Elems(ValGroups(data, key, order, tot))
  {
    var counts := GroupCounts(data, key, order);
    var t, v := TestEnd(counts, tot), ValEnd(counts, tot);
    assert order[..t] + order[t..v] == order[..v];
    forall x | x in Elems(order[..t])
      ensures x !in Elems(order[t..v])
    {
      var a :| 0 <= a < t && order[..t][a] == x;
      forall b | 0 <= b < v - t
        ensures order[t..v][b] != x
      {
        assert order[t..v][b] == order[t + b];
      }
    }
  }

  /** Train, val and test split the rows: every row (with its
      multiplicity) lands in exactly one of them, decided by its key alone,
      so rows with equal products always land in the same set. */
  lemma ProductSplitPartition<R>(data: seq<R>, key: R -> string, order: seq<string>, tot: int)
    requires Distinct(order)
    ensures var s := ProductSplit(data, key, order, tot);
            multiset(s.train) + multiset(s.val) + multiset(s.test) == multiset(data)
    ensures var s := ProductSplit(data, key, order, tot);
            forall r :: (r in s.test <==> r in data && key(r) in TestGroups(data, key, order, tot)) &&
                        (r in s.val <==> r in data && key(r) in ValGroups(data, key, order, tot)) &&
                        (r in s.train <==> r in data && key(r) !in TestGroups(data, key, order, tot) &&
                                           key(r) !in ValGroups(data, key, order, tot))
    ensures var s := ProductSplit(data, key, order, tot);
            forall r1, r2 :: r1 in data && r2 in data && key(r1) == key(r2) ==>
              (r1 in s.train <==> r2 in s.train) && (r1 in s.val <==> r2 in s.val) && (r1 in s.test <==> r2 in s.test)
  {
    var testKeys := Elems(TestGroups(data, key, order, tot));
    var valKeys := Elems(ValGroups(data, key, order, tot));
    TestValDisjoint(data, key, order, tot);
    ThreeWayPartition(data, key, valKeys, testKeys);
    assert valKeys + testKeys == testKeys + valKeys;
    SelectSpec(data, key, testKeys);
    SelectSpec(data, key, valKeys);
    RejectSpec(data, key, testKeys + valKeys);
  }

  /** The test set has more than `tot` rows unless the groups ran out, and
      before its last group was added it had at most `tot`; the same holds
      for the val set, which is empty when the test set took every group. */
  lemma ProductSplitSizes<R>(data: seq<R>, key: R -> string, order: seq<string>, tot: int)
    requires Distinct(order)
    ensures var s := ProductSplit(data, key, order, tot);
            var counts := GroupCounts(data, key, order);
            var t := |TestGroups(data, key, order, tot)|;
            && |s.test| == SumRange(counts, 0, t)
            && (t == |order| || |s.test| > tot)
            && (|order| > 0 ==> t > 0)
            && (forall q :: 0 < q < t ==> SumRange(counts, 0, q) <= tot)
    ensures var s := ProductSplit(data, key, order, tot);
            var counts := GroupCounts(data, key, order);
            var t := |TestGroups(data, key, order, tot)|;
            var v := t + |ValGroups(data, key, order, tot)|;
            && |s.val| == SumRange(counts, t, v)
            && (v == |order| || |s.val| > tot)
            && (t < |order| ==> t < v)
            && (t == |order| ==> s.val == [])
            && (forall q :: t < q < v ==> SumRange(counts, t, q) <= tot)
  {
    var counts := GroupCounts(data, key, order);
    var t, v := TestEnd(counts, tot), ValEnd(counts, tot);
    CutFromSpec(counts, 0, 0, tot);
    CutFromSpec(counts, t, 0, tot);
    SelectRangeCount(data, key, order, 0, t);
    SelectRangeCount(data, key, order, t, v);
    assert order[..t] == order[0..t];
  }

  /** `canonic_rxn.split(">>")[1]`, or `None` for the `IndexError` of a
      reaction without ">>". */
  function ProductOf(rxn: string): Option<string>
  {
    var parts := Split(rxn, ">>");
    if |parts| < 2 then None else Some(parts[1])
  }

  /** The product is missing exactly when there is no ">>"; a product
      never contains ">>"; and a reaction written `reactants>>products`,
      with no '>' in the reactants and no ">>" in the products, gives back
      its products. */
  lemma ProductOfSpec(rxn: string, reactants: string, products: string)
    ensures ProductOf(rxn).None? <==> !Contains(rxn, ">>")
    ensures ProductOf(rxn).Some? ==> !Contains(ProductOf(rxn).value, ">>")
    ensures '>' !in reactants && !Contains(products, ">>") ==>
              ProductOf(reactants + ">>" + products) == Some(products)
  {
    SplitSeveralContains(rxn, ">>");
    SplitPiecesNoSep(rxn, ">>");
    if '>' !in reactants && !Contains(products, ">>") {
      SplitInTwo(reactants, ">>", products);
    }
  }

  /** The "products" column `full_split` adds ("" where there is none,
      which `FullSplit` never reaches). */
  function ProductColumn<R>(rxn: R -> string): R -> string
  {
    (x: R) => match ProductOf(rxn(x)) case Some(p) => p case None => ""
  }

  /** `full_split`: the product column is derived from each canonical
      reaction, which fails when one of them has no ">>", and the table is
      split by product with `frac = 0.05` (the target `tot` is given). */
  method FullSplit<R(==)>(data: seq<R>, rxn: R -> string, order: seq<string>, tot: int)
    returns (sets: Option<Sets<R>>)
    ensures sets.None? <==> exists x :: x in data && !Contains(rxn(x), ">>")
    ensures sets.Some? ==> sets.value == ProductSplit(data, ProductColumn(rxn), order, tot)
  {
    if exists x :: x in data && ProductOf(rxn(x)).None? {
      ghost var x :| x in data && ProductOf(rxn(x)).None?;
      ProductOfSpec(rxn(x), "", "");
      return None;
    }
    forall x | x in data
      ensures Contains(rxn(x), ">>")
    {
      ProductOfSpec(rxn(x), "", "");
    }
    var split := FullDatasetProductSplit(data, ProductColumn(rxn), order, tot);
    return Some(split);
  }

  // ---------------------------------------------------------------------
  // narrow_template_split
  // ---------------------------------------------------------------------

  /** The percentages of the narrow split. */
  const NarrowFracs: seq<int> := [10, 25, 50]

  /** Python's `round(a / b)` for `b > 0`: the nearest integer, ties to the
      even one. */
  function RoundHalfEven(a: int, b: int): (r: int)
    requires b > 0
    ensures -b <= 2 * (a - b * r) <= b
    ensures (2 * (a - b * r) == b || 2 * (a - b * r) == -b) ==> r % 2 == 0
  {
    var q, m := a / b, a % b;
    assert a == b * q + m;
    if 2 * m < b then q
    else if 2 * m > b then q + 1
    else if q % 2 == 0 then q
    else q + 1
  }

  /** Rounding is monotone. */
  lemma RoundHalfEvenMonotone(a: int, a': int, b: int)
    requires b > 0 && a <= a'
    ensures RoundHalfEven(a, b) <= RoundHalfEven(a', b)
  {
    DivMonotone(a, a', b);
    if a / b == a' / b {
      assert a % b <= a' % b;
    }
  }

  lemma DivMonotone(a: int, a': int, b: int)
    requires b > 0 && a <= a'
    ensures a / b <= a' / b
  {
    var q, q' := a / b, a' / b;
    assert b * q <= a && a' < b * q' + b;
    assert b * q < b * (q' + 1);
  }

  /** The number of train rows a narrow split aims for:
      `round(len(train) * frac / 90)`. */
  function NarrowTarget(n: nat, frac: int): int
  {
    RoundHalfEven(n * frac, 90)
  }

  /** The templates selected for one percentage: the shortest prefix of
      the shuffled templates whose train rows exceed the target, or all. */
  function NarrowSelected<R>(train: seq<R>, key: R -> string, order: seq<string>, frac: int): seq<string>
  {
    order[..CutFrom(GroupCounts(train, key, order), 0, 0, NarrowTarget(|train|, frac))]
  }

  /** The train, val and test sets of one percentage: each set cut down to
      the selected templates. */
  function NarrowSets<R>(sets: seq<seq<R>>, key: R -> string, order: seq<string>, frac: int): (r: seq<seq<R>>)
    requires |sets| >= 1
    ensures |r| == |sets|
  {
    var keys := Elems(NarrowSelected(sets[0], key, order, frac));
    seq(|sets|, j requires 0 <= j < |sets| => Select(sets[j], key, keys))
  }

  /** `narrow_template_split(sets)`, with the templates of the train set in
      their shuffled order `order`: for each percentage, the sets cut down
      to the selected templates. */
  method NarrowTemplateSplit<R>(sets: seq<seq<R>>, key: R -> string, order: seq<string>)
    returns (saved: seq<seq<seq<R>>>)
    requires |sets| >= 1
    ensures |saved| == |NarrowFracs|
    ensures forall k :: 0 <= k < |saved| ==> saved[k] == NarrowSets(sets, key, order, NarrowFracs[k])
  {
    var counts := GroupCounts(sets[0], key, order);
    saved := [];
    for f := 0 to |NarrowFracs|
      invariant |saved| == f
      invariant forall k :: 0 <= k < f ==> saved[k] == NarrowSets(sets, key, order, NarrowFracs[k])
    {
      var frac := NarrowFracs[f];
      var tot := RoundHalfEven(|sets[0]| * frac, 90);
      var counter := 0;
      var selected: seq<string> := [];
      var i := 0;
      while i < |counts|
        invariant 0 <= i <= |counts|
        invariant selected == order[..i]
        invariant CutFrom(counts, i, counter, tot) == CutFrom(counts, 0, 0, tot)
      {
        selected := selected + [order[i]];
        counter := counter + counts[i];
        i := i + 1;
        if counter > tot {
          break;
        }
      }
      assert selected == NarrowSelected(sets[0], key, order, frac);
      var keys := Elems(selected);
      var newSets := seq(|sets|, j requires 0 <= j < |sets| => Select(sets[j], key, keys));
      saved := saved + [newSets];
    }
  }

  /** The selected templates are the shortest non-empty prefix of the
      shuffled templates whose train rows exceed the target, or all of
      them. */
  lemma NarrowSelectedSpec<R>(train: seq<R>, key: R -> string, order: seq<string>, frac: int)
    requires Distinct(order)
    ensures var sel := NarrowSelected(train, key, order, frac);
            var counts := GroupCounts(train, key, order);
            && sel <= order
            && (|order| > 0 ==> |sel| > 0)
            && |Select(train, key, Elems(sel))| == SumRange(counts, 0, |sel|)
            && (|sel| == |order| || |Select(train, key, Elems(sel))| > NarrowTarget(|train|, frac))
            && (forall q :: 0 < q < |sel| ==> SumRange(counts, 0, q) <= NarrowTarget(|train|, frac))
  {
    var counts := GroupCounts(train, key, order);
    var p := CutFrom(counts, 0, 0, NarrowTarget(|train|, frac));
    CutFromSpec(counts, 0, 0, NarrowTarget(|train|, frac));
    SelectRangeCount(train, key, order, 0, p);
    assert order[..p] == order[0..p];
  }

  /** The narrow splits are nested: a smaller percentage selects a prefix
      of the templates a larger one selects, and each of its sets is a
      subsequence of the corresponding larger set. */
  lemma NarrowNested<R>(sets: seq<seq<R>>, key: R -> string, order: seq<string>, low: int, high: int)
    requires |sets| >= 1 && low <= high
    ensures NarrowSelected(sets[0], key, order, low) <= NarrowSelected(sets[0], key, order, high)
    ensures forall j :: 0 <= j < |sets| ==>
              IsSubseq(NarrowSets(sets, key, order, low)[j], NarrowSets(sets, key, order, high)[j])
  {
    var n := |sets[0]|;
    var counts := GroupCounts(sets[0], key, order);
    assert n * low <= n * high by {
      assert n * (high - low) >= 0;
    }
    RoundHalfEvenMonotone(n * low, n * high, 90);
    CutFromMonotone(counts, 0, 0, NarrowTarget(n, low), NarrowTarget(n, high));
    var small, large := NarrowSelected(sets[0], key, order, low), NarrowSelected(sets[0], key, order, high);
    assert Elems(small) <= Elems(large);
    forall j | 0 <= j < |sets|
      ensures IsSubseq(NarrowSets(sets, key, order, low)[j], NarrowSets(sets, key, order, high)[j])
    {
      SelectMonotone(sets[j], key, Elems(small), Elems(large));
    }
  }

  /** Applied to the percentages of the narrow split. */
  lemma NarrowFracsNested<R>(sets: seq<seq<R>>, key: R -> string, order: seq<string>, k: int, l: int)
    requires |sets| >= 1 && 0 <= k <= l < |NarrowFracs|
    ensures NarrowSelected(sets[0], key, order, NarrowFracs[k]) <= NarrowSelected(sets[0], key, order, NarrowFracs[l])
  {
    NarrowNested(sets, key, order, NarrowFracs[k], NarrowFracs[l]);
  }

  // ---------------------------------------------------------------------
  // broad_template_split
  // ---------------------------------------------------------------------

  /** The percentages of the broad split, from the full train set down. */
  const BroadFracs: seq<int> := [90, 50, 25, 10]

  /** A row compared as a whole, as `drop_duplicates()` with no column
      compares rows. */
  function Identity<R>(r: R): R
  {
    r
  }

  /** One round of the broad split: the sampled rows followed by the kept
      examples, with duplicate rows dropped (first occurrence kept).
      `sample(rows, num, den)` is `rows.groupby("template").sample(frac =
      num / den)`. */
  function BroadStep<R(==)>(train: seq<R>, mustTrain: seq<R>, sample: (seq<R>, int, int) -> seq<R>, i: nat): seq<R>
    requires i + 1 < |BroadFracs|
  {
    DedupBy(sample(train, BroadFracs[i + 1], BroadFracs[i]) + mustTrain, Identity)
  }

  /** The train sets of the rounds `i`, `i + 1`, ... up to the last one. */
  function BroadRounds<R(==)>(train: seq<R>, mustTrain: seq<R>, sample: (seq<R>, int, int) -> seq<R>, i: nat): (r: seq<seq<R>>)
    requires i + 1 <= |BroadFracs|
    ensures |r| == |BroadFracs| - 1 - i
    decreases |BroadFracs| - i
  {
    if i + 1 == |BroadFracs| then []
    else
      var next := BroadStep(train, mustTrain, sample, i);
      [next] + BroadRounds(next, mustTrain, sample, i + 1)
  }

  /** `broad_template_split(sets)`: `sets[0]` is replaced, round after
      round, by a sample of itself together with one example per template
      (`pickOne` is `groupby("template").sample(n=1)`); the val and test
      sets are left as they are. Returns the train set saved each round. */
  method BroadTemplateSplit<R(==)>(sets: array<seq<R>>, pickOne: seq<R> -> seq<R>, sample: (seq<R>, int, int) -> seq<R>)
    returns (saved: seq<seq<R>>)
    requires sets.Length >= 1
    modifies sets
    ensures saved == BroadRounds(old(sets[0]), pickOne(old(sets[0])), sample, 0)
    ensures sets[0] == saved[|saved| - 1]
    ensures forall j :: 1 <= j < sets.Length ==> sets[j] == old(sets[j])
  {
    var mustTrain := pickOne(sets[0]);
    ghost var train0 := sets[0];
    saved := [];
    for i := 0 to |BroadFracs| - 1
      invariant |saved| == i
      invariant saved + BroadRounds(sets[0], mustTrain, sample, i) == BroadRounds(train0, mustTrain, sample, 0)
      invariant i == 0 ==> sets[0] == train0
      invariant i > 0 ==> sets[0] == saved[i - 1]
      invariant forall j :: 1 <= j < sets.Length ==> sets[j] == old(sets[j])
    {
      ghost var next := BroadStep(sets[0], mustTrain, sample, i);
      ghost var rest := BroadRounds(next, mustTrain, sample, i + 1);
      assert BroadRounds(sets[0], mustTrain, sample, i) == [next] + rest;
      ghost var before := saved;
      sets[0] := sample(sets[0], BroadFracs[i + 1], BroadFracs[i]);
      sets[0] := DedupBy(sets[0] + mustTrain, Identity);
      saved := saved + [sets[0]];
      assert saved + rest == before + ([next] + rest);
    }
  }

  /** Every row of `xs` whose key has not been seen has a row with that
      key among the rows de-duplication keeps. */
  lemma {:induction false} DedupFromCovers<T, K>(xs: seq<T>, key: T -> K, seen: set<K>, x: T)
    requires x in xs && key(x) !in seen
    ensures exists y :: y in DedupFrom(xs, key, seen) && key(y) == key(x)
  {
    if key(xs[0]) == key(x) {
      assert xs[0] in DedupFrom(xs, key, seen);
    } else {
      var seen' := if key(xs[0]) in seen then seen else seen + {key(xs[0])};
      DedupFromCovers(xs[1..], key, seen', x);
      var y :| y in DedupFrom(xs[1..], key, seen') && key(y) == key(x);
      assert y in DedupFrom(xs, key, seen);
    }
  }

  /** `mustTrain` holds a row of every template of `rows`. */
  ghost predicate CoversTemplates<R>(mustTrain: seq<R>, rows: seq<R>, key: R -> string)
  {
    forall r :: r in rows ==> exists m :: m in mustTrain && key(m) == key(r)
  }

  /** Each round keeps every kept example, and has no duplicate rows. */
  lemma {:induction false} BroadRoundsKeep<R>(train: seq<R>, mustTrain: seq<R>, sample: (seq<R>, int, int) -> seq<R>, i: nat)
    requires i + 1 <= |BroadFracs|
    ensures forall k, m :: 0 <= k < |BroadRounds(train, mustTrain, sample, i)| && m in mustTrain ==>
              m in BroadRounds(train, mustTrain, sample, i)[k]
    ensures forall k :: 0 <= k < |BroadRounds(train, mustTrain, sample, i)| ==>
              Distinct(BroadRounds(train, mustTrain, sample, i)[k])
    decreases |BroadFracs| - i
  {
    if i + 1 < |BroadFracs| {
      var next := BroadStep(train, mustTrain, sample, i);
      var all := sample(train, BroadFracs[i + 1], BroadFracs[i]) + mustTrain;
      forall m | m in mustTrain
        ensures m in next
      {
        DedupFromCovers(all, Identity, {}, m);
      }
      DedupBySpec(all, Identity);
      assert Distinct(next);
      BroadRoundsKeep(next, mustTrain, sample, i + 1);
      var rest := BroadRounds(next, mustTrain, sample, i + 1);
      assert BroadRounds(train, mustTrain, sample, i) == [next] + rest;
    }
  }

  /** Every template of the initial train set keeps at least one row in
      every broad train set, provided the examples cover every template. */
  lemma BroadKeepsTemplates<R>(train: seq<R>, mustTrain: seq<R>, sample: (seq<R>, int, int) -> seq<R>, key: R -> string)
    requires CoversTemplates(mustTrain, train, key)
    ensures forall k, r :: 0 <= k < |BroadRounds(train, mustTrain, sample, 0)| && r in train ==>
              exists m :: m in BroadRounds(train, mustTrain, sample, 0)[k] && key(m) == key(r)
  {
    BroadRoundsKeep(train, mustTrain, sample, 0);
  }

  /** With samplers that only return rows of their input and examples
      taken from the train set, every broad train set only holds rows of
      the initial train set. */
  lemma {:induction false} BroadRoundsWithin<R>(train: seq<R>, mustTrain: seq<R>, sample: (seq<R>, int, int) -> seq<R>,
                                                    i: nat, train0: seq<R>)
    requires i + 1 <= |BroadFracs|
    requires forall xs, num, den, r :: r in sample(xs, num, den) ==> r in xs
    requires forall m :: m in mustTrain ==> m in train0
    requires forall r :: r in train ==> r in train0
    ensures forall k, r :: 0 <= k < |BroadRounds(train, mustTrain, sample, i)| && r in BroadRounds(train, mustTrain, sample, i)[k] ==>
              r in train0
    decreases |BroadFracs| - i
  {
    if i + 1 < |BroadFracs| {
      var next := BroadStep(train, mustTrain, sample, i);
      var all := sample(train, BroadFracs[i + 1], BroadFracs[i]) + mustTrain;
      DedupFromMembers(all, Identity, {});
      forall r | r in next
        ensures r in train0
      {
        var k :| 0 <= k < |next| && next[k] == r;
        assert r in all;
      }
      BroadRoundsWithin(next, mustTrain, sample, i + 1, train0);
      assert BroadRounds(train, mustTrain, sample, i) == [next] + BroadRounds(next, mustTrain, sample, i + 1);
    }
  }

  // ---------------------------------------------------------------------
  // template_test
  // ---------------------------------------------------------------------

  /** The number of reactions sampled for each Pistachio test set. */
  const TestSize := 10000

  /** `df_base["template"].drop_duplicates()`, as a set. */
  function BaseTemplates<R(==)>(base: seq<R>, key: R -> string): set<string>
  {
    set r | r in base :: key(r)
  }

  /** The reactions of `df` whose template does not occur in `df_base`. */
  function OodRows<R(==)>(df: seq<R>, base: seq<R>, key: R -> string): seq<R>
  {
    Reject(df, key, BaseTemplates(base, key))
  }

  /** The reactions of `df` whose template does occur in `df_base`. */
  function IdRows<R(==)>(df: seq<R>, base: seq<R>, key: R -> string): seq<R>
  {
    Select(df, key, BaseTemplates(base, key))
  }

  /** The test sets written by `template_test`, in the order OOD, ID;
      `Raised` carries those written before `sample(10000)` failed on a
      set with fewer rows. */
  datatype TestOutcome<R> = Written(sets: seq<seq<R>>) | Raised(written: seq<seq<R>>)

  /** `template_test(df, df_base)`; `sample` is `sample(10000)`. */
  function TemplateTest<R(==)>(df: seq<R>, base: seq<R>, key: R -> string, sample: seq<R> -> seq<R>): TestOutcome<R>
  {
    var ood, id := OodRows(df, base, key), IdRows(df, base, key);
    if |ood| < TestSize then Raised([])
    else if |id| < TestSize then Raised([sample(ood)])
    else Written([sample(ood), sample(id)])
  }

  /** The OOD and ID reactions split `df`: each reaction (with its
      multiplicity) is in exactly one, the ID ones being those whose
      template some base reaction has. */
  lemma TemplateTestPartition<R>(df: seq<R>, base: seq<R>, key: R -> string)
    ensures multiset(OodRows(df, base, key)) + multiset(IdRows(df, base, key)) == multiset(df)
    ensures forall r :: r in IdRows(df, base, key) <==> r in df && exists b :: b in base && key(b) == key(r)
    ensures forall r :: r in OodRows(df, base, key) <==> r in df && forall b :: b in base ==> key(b) != key(r)
  {
    var keys := BaseTemplates(base, key);
    SelectRejectPartition(df, key, keys);
    SelectSpec(df, key, keys);
    RejectSpec(df, key, keys);
  }

  /** Both test sets are written exactly when each part has at least
      10000 reactions; with a sampler that only returns rows of its input,
      the OOD set only holds reactions with unseen templates and the ID set
      only reactions with seen ones. */
  lemma TemplateTestSets<R>(df: seq<R>, base: seq<R>, key: R -> string, sample: seq<R> -> seq<R>)
    requires forall xs, r :: r in sample(xs) ==> r in xs
    ensures TemplateTest(df, base, key, sample).Written? <==>
              |OodRows(df, base, key)| >= TestSize && |IdRows(df, base, key)| >= TestSize
    ensures var out := TemplateTest(df, base, key, sample);
            forall r :: out.Written? && r in out.sets[0] ==> r in df && key(r) !in BaseTemplates(base, key)
    ensures var out := TemplateTest(df, base, key, sample);
            forall r :: out.Written? && r in out.sets[1] ==> r in df && key(r) in BaseTemplates(base, key)
  {
    SelectSpec(df, key, BaseTemplates(base, key));
    RejectSpec(df, key, BaseTemplates(base, key));
  }
}
