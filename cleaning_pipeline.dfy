/** `clean_dataset` (preprocessing/2_cleaning.py): a fixed sequence of
    frame stages over the rows of a dataset. A stage either rewrites the
    `rxn_map` column row by row, keeps the rows that pass a test (a boolean
    mask), or drops repeated values of a column keeping the first row. */
module CleaningPipeline {
  import opened Wrappers
  import opened Text
  import opened Seqs
  import opened Chemistry
  import opened Cleaning
  import opened CleaningFacts

  /** A row of the frame before the `canonic_rxn` column exists. */
  datatype Row = Row(id: string, rxnMap: string)

  /** A row of the cleaned frame. */
  datatype CleanRow = CleanRow(id: string, rxnMap: string, canonicRxn: string)

  const MaxRows := 1000
  const MaxLength := 512

  function IdOf(r: Row): string { r.id }
  function CleanIdOf(r: CleanRow): string { r.id }
  function RxnMapOf(r: Row): string { r.rxnMap }
  function CanonicOf(r: CleanRow): string { r.canonicRxn }

  /** `df["rxn_map"].str.count(">") == 2` */
  predicate HasTwoArrows(r: Row) { CountChar(r.rxnMap, '>') == 2 }

  /** `~df["rxn_map"].str.contains("Error")` */
  predicate RxnMapClean(r: Row) { !Contains(r.rxnMap, "Error") }

  /** `~df["canonic_rxn"].str.contains("Error")` */
  predicate CanonicClean(r: CleanRow) { !Contains(r.canonicRxn, "Error") }

  /** `~df["canonic_rxn"].apply(size_filter)` */
  predicate CanonicShort(r: CleanRow) { !TooLong(r.canonicRxn) }

  /** `df["rxn_map"] = df["rxn_map"].apply(step)`: every row rewritten by
      `step`; the whole stage raises when `step` raises on some row. */
  function MapRxn(rows: seq<Row>, step: string -> Option<string>): (r: Option<seq<Row>>)
    ensures r.Some? <==> forall i :: 0 <= i < |rows| ==> step(rows[i].rxnMap).Some?
    ensures r.Some? ==> |r.value| == |rows|
    ensures r.Some? ==> forall i :: 0 <= i < |rows| ==> r.value[i] == Row(rows[i].id, step(rows[i].rxnMap).value)
  {
    if rows == [] then Some([])
    else
      match (step(rows[0].rxnMap), MapRxn(rows[1..], step))
      case (Some(x), Some(rest)) => Some([Row(rows[0].id, x)] + rest)
      case _ => None
  }

  /** `df["canonic_rxn"] = df["rxn_map"].apply(remove_mapping)` */
  function WithCanonic(tk: Toolkit, rows: seq<Row>): (r: seq<CleanRow>)
    ensures |r| == |rows|
    ensures forall i :: 0 <= i < |rows| ==>
              r[i] == CleanRow(rows[i].id, rows[i].rxnMap, tk.removeMapping(rows[i].rxnMap))
  {
    seq(|rows|, i requires 0 <= i < |rows| => CleanRow(rows[i].id, rows[i].rxnMap, tk.removeMapping(rows[i].rxnMap)))
  }

  /** A mask selection keeps the order of the dataset ids. */
  lemma FilterIds(rows: seq<Row>, p: Row -> bool)
    ensures IsSubseq(Project(Filter(rows, p), IdOf), Project(rows, IdOf))
  {
    FilterSubseq(rows, p);
    SubseqProject(Filter(rows, p), rows, IdOf);
  }

  /** De-duplication keeps the order of the dataset ids. */
  lemma DedupIds(rows: seq<Row>, key: Row -> string)
    ensures IsSubseq(Project(DedupBy(rows, key), IdOf), Project(rows, IdOf))
  {
    DedupBySpec(rows, key);
    SubseqProject(DedupBy(rows, key), rows, IdOf);
  }

  /** The rows of `clean_dataset`'s output: at most 1000; neither column
      contains "Error"; every `canonic_rxn` has at most 512 characters;
      the `canonic_rxn` values are pairwise distinct. */
  predicate CleanOutput(rows: seq<CleanRow>)
  {
    |rows| <= MaxRows &&
    (forall i :: 0 <= i < |rows| ==> !Contains(rows[i].rxnMap, "Error")) &&
    (forall i :: 0 <= i < |rows| ==> !Contains(rows[i].canonicRxn, "Error")) &&
    (forall i :: 0 <= i < |rows| ==> |rows[i].canonicRxn| <= MaxLength) &&
    (forall i, j :: 0 <= i < j < |rows| ==> rows[i].canonicRxn != rows[j].canonicRxn)
  }

  /** Each row of `rows` has a distinct `rxn_map`. */
  predicate DistinctRxnMaps(rows: seq<Row>)
  {
    forall i, j :: 0 <= i < j < |rows| ==> rows[i].rxnMap != rows[j].rxnMap
  }

  /** No `rxn_map` of `rows` contains "Error". */
  predicate NoErrorRxnMaps(rows: seq<Row>)
  {
    forall i :: 0 <= i < |rows| ==> !Contains(rows[i].rxnMap, "Error")
  }

  /** What stages leave of the frame `df`: either the run has aborted, or
      no more rows than `df` with a selection, in order, of its ids. */
  predicate Shrinks(r: Option<seq<Row>>, df: seq<Row>)
  {
    r.Some? ==> |r.value| <= |df| && IsSubseq(Project(r.value, IdOf), Project(df, IdOf))
  }

  // The row functions of the stages, named once so that a stage method and
  // the function that specifies it apply the same step.
  function UntangleStep(tk: Toolkit): string -> Option<string> { (s: string) => Untangled(tk, s) }
  const FragmentStep: string -> Option<string> := (s: string) => Some(RemoveFragmentInfo(s))
  function ReagentStep(tk: Toolkit): string -> Option<string> { (s: string) => WithoutReagents(tk, s) }
  const CountStep: string -> Option<string> := (s: string) => Some(ReactantCountFilter(s))
  function MultiproductStep(tk: Toolkit): string -> Option<string> { (s: string) => MultiproductFixer(tk, s) }
  function CarbonStep(tk: Toolkit): string -> Option<string> { (s: string) => NoCarbon(tk, s) }
  function StereoStep(tk: Toolkit): string -> Option<string> { (s: string) => RemoveStereoalchemy(tk, s) }
  function CanonicaliseStep(tk: Toolkit): string -> Option<string> { (s: string) => Some(tk.canonicalise(s)) }

  /** A row-function stage on the frame, unless an earlier stage raised. */
  function Apply(df: Option<seq<Row>>, step: string -> Option<string>): Option<seq<Row>>
  {
    if df.None? then None else MapRxn(df.value, step)
  }

  /** `drop_duplicates("rxn_map")`, unless an earlier stage raised. */
  function DedupRxn(df: Option<seq<Row>>): Option<seq<Row>>
  {
    if df.None? then None else Some(DedupBy(df.value, RxnMapOf))
  }

  /** The "Error" mask on `rxn_map`, unless an earlier stage raised. */
  function DropErrorRows(df: Option<seq<Row>>): Option<seq<Row>>
  {
    if df.None? then None else Some(Filter(df.value, RxnMapClean))
  }

  /** `head(1000)`, the two-`>` mask and the first de-duplication. */
  function SelectedRows(raw: seq<Row>): seq<Row>
  {
    DedupBy(Filter(Take(raw, MaxRows), HasTwoArrows), RxnMapOf)
  }

  /** Untangling, joining, fragment-info removal and reagent removal, each
      followed by de-duplication. */
  function Rewritten(tk: Toolkit, df: Option<seq<Row>>): Option<seq<Row>>
  {
    var untangled := DedupRxn(Apply(df, UntangleStep(tk)));
    var joined := DedupRxn(Apply(untangled, JoinReactantsReagents));
    var trimmed := DedupRxn(Apply(joined, FragmentStep));
    DedupRxn(Apply(trimmed, ReagentStep(tk)))
  }

  /** The reactant-count, multi-product, carbon, stereochemistry and
      product-in-reactants stages, with their "Error" masks and
      de-duplications. */
  function Filtered(tk: Toolkit, df: Option<seq<Row>>): Option<seq<Row>>
  {
    var counted := DropErrorRows(Apply(df, CountStep));
    var single := DropErrorRows(Apply(counted, MultiproductStep(tk)));
    var organic := DedupRxn(DropErrorRows(Apply(single, CarbonStep(tk))));
    var flat := DedupRxn(Apply(organic, StereoStep(tk)));
    DedupRxn(DropErrorRows(Apply(flat, ProductInReactants)))
  }

  /** Canonicalisation and its "Error" mask. */
  function Canonicalised(tk: Toolkit, df: Option<seq<Row>>): Option<seq<Row>>
  {
    DropErrorRows(Apply(df, CanonicaliseStep(tk)))
  }

  /** The frame after every stage that rewrites `rxn_map`. */
  function Staged(tk: Toolkit, raw: seq<Row>): Option<seq<Row>>
  {
    Canonicalised(tk, Filtered(tk, Rewritten(tk, Some(SelectedRows(raw)))))
  }

  /** The whole of `clean_dataset` on the rows read from the raw file:
      `None` when a row function raises on a row that reaches its stage. */
  function Cleaned(tk: Toolkit, raw: seq<Row>): Option<seq<CleanRow>>
  {
    var staged := Staged(tk, raw);
    if staged.None? then None else Some(FinalStages(WithCanonic(tk, staged.value)))
  }

  /** The first stages keep at most 1000 rows of the head of the file, each
      with exactly two `>` and with distinct `rxn_map`s, ids in input order;
      the first row of every `rxn_map` among the two-`>` rows is kept. */
  lemma SelectedRowsSpec(raw: seq<Row>)
    ensures Shrinks(Some(SelectedRows(raw)), raw) && |SelectedRows(raw)| <= MaxRows
    ensures forall i :: 0 <= i < |SelectedRows(raw)| ==>
              SelectedRows(raw)[i] in Take(raw, MaxRows) && HasTwoArrows(SelectedRows(raw)[i])
    ensures DistinctRxnMaps(SelectedRows(raw))
    ensures var twoArrows := Filter(Take(raw, MaxRows), HasTwoArrows);
            forall i :: 0 <= i < |twoArrows| && FirstOfKey(twoArrows, RxnMapOf, i) ==> twoArrows[i] in SelectedRows(raw)
  {
    var head := Take(raw, MaxRows);
    PrefixSubseq(head, raw);
    SubseqProject(head, raw, IdOf);
    var twoArrows := Filter(head, HasTwoArrows);
    FilterIds(head, HasTwoArrows);
    SubseqTrans(Project(twoArrows, IdOf), Project(head, IdOf), Project(raw, IdOf));
    var df := DedupBy(twoArrows, RxnMapOf);
    DedupBySpec(twoArrows, RxnMapOf);
    DedupIds(twoArrows, RxnMapOf);
    SubseqTrans(Project(df, IdOf), Project(twoArrows, IdOf), Project(raw, IdOf));
    DedupFromMembers(twoArrows, RxnMapOf, {});
    forall i | 0 <= i < |df|
      ensures df[i] in head && HasTwoArrows(df[i])
    {
      var j :| 0 <= j < |twoArrows| && twoArrows[j] == df[i];
    }
  }

  /** After the two-`>` mask the untangling stage never raises. */
  lemma UntangleStageTotal(tk: Toolkit, df: seq<Row>)
    requires forall i :: 0 <= i < |df| ==> CountChar(df[i].rxnMap, '>') == 2
    ensures MapRxn(df, UntangleStep(tk)).Some?
  {
    forall i | 0 <= i < |df|
      ensures Untangled(tk, df[i].rxnMap).Some?
    {
      UntangledDefined(tk, df[i].rxnMap);
    }
  }

  /** The run never aborts at the untangling stage. */
  lemma SelectedRowsUntangle(tk: Toolkit, raw: seq<Row>)
    ensures Apply(Some(SelectedRows(raw)), UntangleStep(tk)).Some?
  {
    SelectedRowsSpec(raw);
    UntangleStageTotal(tk, SelectedRows(raw));
  }

  /** A row-function stage aborts the run exactly when an earlier stage
      did or its row function raises on one of the rows. */
  lemma ApplyRaises(x: Option<seq<Row>>, step: string -> Option<string>)
    ensures Apply(x, step).None? <==>
              x.None? || exists i :: 0 <= i < |x.value| && step(x.value[i].rxnMap).None?
  {
  }

  /** A row-function stage keeps the rows and their ids. */
  lemma ApplyShrinks(x: Option<seq<Row>>, step: string -> Option<string>, df: seq<Row>)
    requires Shrinks(x, df)
    ensures Shrinks(Apply(x, step), df)
    ensures Apply(x, step).Some? ==> Project(Apply(x, step).value, IdOf) == Project(x.value, IdOf)
  {
    if Apply(x, step).Some? {
      var v := Apply(x, step).value;
      assert forall i :: 0 <= i < |v| ==> Project(v, IdOf)[i] == Project(x.value, IdOf)[i];
      assert Project(v, IdOf) == Project(x.value, IdOf);
    }
  }

  /** De-duplication on `rxn_map` drops rows only, keeps ids in order and
      leaves distinct `rxn_map`s. */
  lemma DedupRxnShrinks(x: Option<seq<Row>>, df: seq<Row>)
    requires Shrinks(x, df)
    ensures Shrinks(DedupRxn(x), df)
    ensures DedupRxn(x).Some? ==> DistinctRxnMaps(DedupRxn(x).value)
    ensures DedupRxn(x).Some? ==> forall i :: 0 <= i < |DedupRxn(x).value| ==> DedupRxn(x).value[i] in x.value
  {
    if x.Some? {
      var v := DedupBy(x.value, RxnMapOf);
      DedupBySpec(x.value, RxnMapOf);
      DedupIds(x.value, RxnMapOf);
      DedupFromMembers(x.value, RxnMapOf, {});
      SubseqTrans(Project(v, IdOf), Project(x.value, IdOf), Project(df, IdOf));
    }
  }

  /** The "Error" mask drops rows only, keeps ids in order and leaves no
      `rxn_map` containing "Error". */
  lemma DropErrorRowsShrinks(x: Option<seq<Row>>, df: seq<Row>)
    requires Shrinks(x, df)
    ensures Shrinks(DropErrorRows(x), df)
    ensures DropErrorRows(x).Some? ==> NoErrorRxnMaps(DropErrorRows(x).value)
  {
    if x.Some? {
      var v := Filter(x.value, RxnMapClean);
      FilterIds(x.value, RxnMapClean);
      SubseqTrans(Project(v, IdOf), Project(x.value, IdOf), Project(df, IdOf));
    }
  }

  /** A row-function stage followed by de-duplication. */
  lemma DedupApplyShrinks(x: Option<seq<Row>>, step: string -> Option<string>, df: seq<Row>)
    requires Shrinks(x, df)
    ensures Shrinks(DedupRxn(Apply(x, step)), df)
    ensures DedupRxn(Apply(x, step)).Some? ==> DistinctRxnMaps(DedupRxn(Apply(x, step)).value)
  {
    ApplyShrinks(x, step, df);
    DedupRxnShrinks(Apply(x, step), df);
  }

  /** A row-function stage followed by the "Error" mask. */
  lemma DropApplyShrinks(x: Option<seq<Row>>, step: string -> Option<string>, df: seq<Row>)
    requires Shrinks(x, df)
    ensures Shrinks(DropErrorRows(Apply(x, step)), df)
    ensures DropErrorRows(Apply(x, step)).Some? ==> NoErrorRxnMaps(DropErrorRows(Apply(x, step)).value)
  {
    ApplyShrinks(x, step, df);
    DropErrorRowsShrinks(Apply(x, step), df);
  }

  /** A row-function stage followed by the "Error" mask and de-duplication. */
  lemma DedupDropApplyShrinks(x: Option<seq<Row>>, step: string -> Option<string>, df: seq<Row>)
    requires Shrinks(x, df)
    ensures Shrinks(DedupRxn(DropErrorRows(Apply(x, step))), df)
    ensures var r := DedupRxn(DropErrorRows(Apply(x, step)));
            r.Some? ==> DistinctRxnMaps(r.value) && NoErrorRxnMaps(r.value)
  {
    var checked := DropErrorRows(Apply(x, step));
    DropApplyShrinks(x, step, df);
    DedupRxnShrinks(checked, df);
    if checked.Some? {
      var v := DedupRxn(checked).value;
      forall i | 0 <= i < |v|
        ensures !Contains(v[i].rxnMap, "Error")
      {
        var j :| 0 <= j < |checked.value| && checked.value[j] == v[i];
      }
    }
  }

  /** The rewriting stages drop rows only, keep ids in order and leave
      distinct `rxn_map`s. */
  lemma RewrittenShrinks(tk: Toolkit, x: Option<seq<Row>>, df: seq<Row>)
    requires Shrinks(x, df)
    ensures Shrinks(Rewritten(tk, x), df)
    ensures Rewritten(tk, x).Some? ==> DistinctRxnMaps(Rewritten(tk, x).value)
  {
    DedupApplyShrinks(x, UntangleStep(tk), df);
    var untangled := DedupRxn(Apply(x, UntangleStep(tk)));
    DedupApplyShrinks(untangled, JoinReactantsReagents, df);
    var joined := DedupRxn(Apply(untangled, JoinReactantsReagents));
    DedupApplyShrinks(joined, FragmentStep, df);
    var trimmed := DedupRxn(Apply(joined, FragmentStep));
    DedupApplyShrinks(trimmed, ReagentStep(tk), df);
  }

  /** The filtering stages drop rows only, keep ids in order and leave
      distinct `rxn_map`s none of which contains "Error". */
  lemma FilteredShrinks(tk: Toolkit, x: Option<seq<Row>>, df: seq<Row>)
    requires Shrinks(x, df)
    ensures Shrinks(Filtered(tk, x), df)
    ensures Filtered(tk, x).Some? ==> DistinctRxnMaps(Filtered(tk, x).value) && NoErrorRxnMaps(Filtered(tk, x).value)
  {
    DropApplyShrinks(x, CountStep, df);
    var counted := DropErrorRows(Apply(x, CountStep));
    DropApplyShrinks(counted, MultiproductStep(tk), df);
    var single := DropErrorRows(Apply(counted, MultiproductStep(tk)));
    DedupDropApplyShrinks(single, CarbonStep(tk), df);
    var organic := DedupRxn(DropErrorRows(Apply(single, CarbonStep(tk))));
    DedupApplyShrinks(organic, StereoStep(tk), df);
    var flat := DedupRxn(Apply(organic, StereoStep(tk)));
    DedupDropApplyShrinks(flat, ProductInReactants, df);
  }

  /** Canonicalisation and its mask drop rows only, keep ids in order and
      leave no `rxn_map` containing "Error". */
  lemma CanonicalisedShrinks(tk: Toolkit, x: Option<seq<Row>>, df: seq<Row>)
    requires Shrinks(x, df)
    ensures Shrinks(Canonicalised(tk, x), df)
    ensures Canonicalised(tk, x).Some? ==> NoErrorRxnMaps(Canonicalised(tk, x).value)
  {
    ApplyShrinks(x, CanonicaliseStep(tk), df);
    DropErrorRowsShrinks(Apply(x, CanonicaliseStep(tk)), df);
  }

  /** The stages that rewrite `rxn_map` leave at most 1000 rows, a
      selection of the selected rows in id order, none containing "Error". */
  lemma StagedShrinks(tk: Toolkit, raw: seq<Row>)
    ensures Shrinks(Staged(tk, raw), SelectedRows(raw)) && |SelectedRows(raw)| <= MaxRows
    ensures IsSubseq(Project(SelectedRows(raw), IdOf), Project(raw, IdOf))
    ensures Staged(tk, raw).Some? ==> NoErrorRxnMaps(Staged(tk, raw).value)
  {
    var s := SelectedRows(raw);
    SelectedRowsSpec(raw);
    SubseqRefl(Project(s, IdOf));
    var a := Rewritten(tk, Some(s));
    RewrittenShrinks(tk, Some(s), s);
    var b := Filtered(tk, a);
    FilteredShrinks(tk, a, s);
    CanonicalisedShrinks(tk, b, s);
  }

  /** Adding the `canonic_rxn` column keeps the ids. */
  lemma WithCanonicIds(tk: Toolkit, df: seq<Row>)
    ensures Project(WithCanonic(tk, df), CleanIdOf) == Project(df, IdOf)
  {
    var clean := WithCanonic(tk, df);
    assert forall i :: 0 <= i < |df| ==> Project(clean, CleanIdOf)[i] == Project(df, IdOf)[i];
  }

  /** The `canonic_rxn` column and the last stages, on at most 1000 rows
      without "Error" in `rxn_map`, give a table with the output
      properties and ids in order. */
  lemma FinishedSpec(tk: Toolkit, df: seq<Row>)
    requires |df| <= MaxRows && NoErrorRxnMaps(df)
    ensures CleanOutput(FinalStages(WithCanonic(tk, df)))
    ensures IsSubseq(Project(FinalStages(WithCanonic(tk, df)), CleanIdOf), Project(df, IdOf))
  {
    var clean := WithCanonic(tk, df);
    WithCanonicIds(tk, df);
    assert forall i :: 0 <= i < |clean| ==> !Contains(clean[i].rxnMap, "Error");
    FinalStagesOutput(clean);
    FinalStagesIds(clean);
  }

  /** Each `canonic_rxn` left by the last stages is `remove_mapping` of its
      own row's `rxn_map`. */
  lemma FinishedCanonic(tk: Toolkit, df: seq<Row>)
    ensures var final := FinalStages(WithCanonic(tk, df));
            forall k :: 0 <= k < |final| ==> final[k].canonicRxn == tk.removeMapping(final[k].rxnMap)
  {
    var clean := WithCanonic(tk, df);
    var final := FinalStages(clean);
    FinalStagesRows(clean);
    forall k | 0 <= k < |final|
      ensures final[k].canonicRxn == tk.removeMapping(final[k].rxnMap)
    {
      var i :| 0 <= i < |clean| && clean[i] == final[k];
    }
  }

  /** When no row function raises, the output has all the properties of
      `CleanOutput`, its ids are a selection, in order, of the input's, and
      each `canonic_rxn` is `remove_mapping` of its row's `rxn_map`. */
  lemma CleanedSpec(tk: Toolkit, raw: seq<Row>)
    ensures Cleaned(tk, raw).Some? ==> CleanOutput(Cleaned(tk, raw).value)
    ensures Cleaned(tk, raw).Some? ==> IsSubseq(Project(Cleaned(tk, raw).value, CleanIdOf), Project(raw, IdOf))
    ensures Cleaned(tk, raw).Some? ==> forall k :: 0 <= k < |Cleaned(tk, raw).value| ==>
              Cleaned(tk, raw).value[k].canonicRxn == tk.removeMapping(Cleaned(tk, raw).value[k].rxnMap)
  {
    var s := SelectedRows(raw);
    var c := Staged(tk, raw);
    StagedShrinks(tk, raw);
    if c.Some? {
      FinishedSpec(tk, c.value);
      FinishedCanonic(tk, c.value);
      SubseqTrans(Project(Cleaned(tk, raw).value, CleanIdOf), Project(c.value, IdOf), Project(s, IdOf));
      SubseqTrans(Project(Cleaned(tk, raw).value, CleanIdOf), Project(s, IdOf), Project(raw, IdOf));
    }
  }

  /** `clean_dataset`, stage by stage, on the rows read from the raw file. */
  method CleanDataset(tk: Toolkit, raw: seq<Row>) returns (result: Option<seq<CleanRow>>)
    ensures result == Cleaned(tk, raw)
    ensures result.Some? ==> CleanOutput(result.value)
    ensures result.Some? ==> IsSubseq(Project(result.value, CleanIdOf), Project(raw, IdOf))
  {
    CleanedSpec(tk, raw);
    var df := SelectRows(raw);
    var staged := RewriteStages(tk, df);
    if staged.None? { return None; }
    staged := FilterStages(tk, staged.value);
    if staged.None? { return None; }
    staged := CanonicaliseStage(tk, staged.value);
    if staged.None? { return None; }
    var clean := WithCanonic(tk, staged.value);
    var final := Filter(clean, CanonicClean);
    final := Filter(final, CanonicShort);
    final := DedupBy(final, CanonicOf);
    result := Some(final);
  }

  /** `head(1000)`, the two-`>` mask and the first de-duplication. */
  method SelectRows(raw: seq<Row>) returns (df: seq<Row>)
    ensures df == SelectedRows(raw)
    ensures |df| <= MaxRows && IsSubseq(Project(df, IdOf), Project(raw, IdOf))
    ensures forall i :: 0 <= i < |df| ==> CountChar(df[i].rxnMap, '>') == 2
  {
    var head := Take(raw, MaxRows);
    var twoArrows := Filter(head, HasTwoArrows);
    df := DedupBy(twoArrows, RxnMapOf);
    SelectedRowsSpec(raw);
  }

  /** The rewriting stages on the frame `df`. */
  method RewriteStages(tk: Toolkit, df: seq<Row>) returns (r: Option<seq<Row>>)
    ensures r == Rewritten(tk, Some(df))
    ensures Shrinks(r, df)
    ensures r.Some? ==> DistinctRxnMaps(r.value)
  {
    SubseqRefl(Project(df, IdOf));
    RewrittenShrinks(tk, Some(df), df);
    var mapped := MapRxn(df, UntangleStep(tk));
    if mapped.None? { return None; }
    var next := DedupBy(mapped.value, RxnMapOf);

    mapped := MapRxn(next, JoinReactantsReagents);
    if mapped.None? { return None; }
    next := DedupBy(mapped.value, RxnMapOf);

    mapped := MapRxn(next, FragmentStep);
    if mapped.None? { return None; }
    next := DedupBy(mapped.value, RxnMapOf);

    mapped := MapRxn(next, ReagentStep(tk));
    if mapped.None? { return None; }
    next := DedupBy(mapped.value, RxnMapOf);
    r := Some(next);
  }

  /** The filtering stages on the frame `df`. */
  method FilterStages(tk: Toolkit, df: seq<Row>) returns (r: Option<seq<Row>>)
    ensures r == Filtered(tk, Some(df))
    ensures Shrinks(r, df)
    ensures r.Some? ==> DistinctRxnMaps(r.value) && NoErrorRxnMaps(r.value)
  {
    SubseqRefl(Project(df, IdOf));
    FilteredShrinks(tk, Some(df), df);
    var mapped := MapRxn(df, CountStep);
    if mapped.None? { return None; }
    var next := Filter(mapped.value, RxnMapClean);

    mapped := MapRxn(next, MultiproductStep(tk));
    if mapped.None? { return None; }
    next := Filter(mapped.value, RxnMapClean);

    mapped := MapRxn(next, CarbonStep(tk));
    if mapped.None? { return None; }
    next := Filter(mapped.value, RxnMapClean);
    next := DedupBy(next, RxnMapOf);

    mapped := MapRxn(next, StereoStep(tk));
    if mapped.None? { return None; }
    next := DedupBy(mapped.value, RxnMapOf);

    mapped := MapRxn(next, ProductInReactants);
    if mapped.None? { return None; }
    next := Filter(mapped.value, RxnMapClean);
    next := DedupBy(next, RxnMapOf);
    r := Some(next);
  }

  /** Canonicalisation and its "Error" mask on the frame `df`. */
  method CanonicaliseStage(tk: Toolkit, df: seq<Row>) returns (r: Option<seq<Row>>)
    ensures r == Canonicalised(tk, Some(df))
    ensures Shrinks(r, df)
    ensures r.Some? ==> NoErrorRxnMaps(r.value)
  {
    SubseqRefl(Project(df, IdOf));
    CanonicalisedShrinks(tk, Some(df), df);
    var mapped := MapRxn(df, CanonicaliseStep(tk));
    if mapped.None? { return None; }
    r := Some(Filter(mapped.value, RxnMapClean));
  }

  /** The rows left by the last stages (drop "Error" in `canonic_rxn`,
      drop the long ones, de-duplicate on `canonic_rxn`). */
  function FinalStages(clean: seq<CleanRow>): seq<CleanRow>
  {
    DedupBy(Filter(Filter(clean, CanonicClean), CanonicShort), CanonicOf)
  }

  /** Every row left by the last stages is a row of their input that
      passes both masks. */
  lemma FinalStagesRows(clean: seq<CleanRow>)
    ensures forall k :: 0 <= k < |FinalStages(clean)| ==>
              FinalStages(clean)[k] in clean && CanonicClean(FinalStages(clean)[k]) && CanonicShort(FinalStages(clean)[k])
  {
    var a := Filter(clean, CanonicClean);
    var b := Filter(a, CanonicShort);
    var c := DedupBy(b, CanonicOf);
    DedupFromMembers(b, CanonicOf, {});
    forall k | 0 <= k < |c|
      ensures c[k] in clean && CanonicClean(c[k]) && CanonicShort(c[k])
    {
      var i :| 0 <= i < |b| && b[i] == c[k];
    }
  }

  /** The last stages establish the output properties. */
  lemma FinalStagesOutput(clean: seq<CleanRow>)
    requires |clean| <= MaxRows
    requires forall i :: 0 <= i < |clean| ==> !Contains(clean[i].rxnMap, "Error")
    ensures CleanOutput(FinalStages(clean))
  {
    var c := FinalStages(clean);
    FinalStagesRows(clean);
    DedupFromDistinct(Filter(Filter(clean, CanonicClean), CanonicShort), CanonicOf, {});
    forall k | 0 <= k < |c|
      ensures !Contains(c[k].rxnMap, "Error")
    {
      var i :| 0 <= i < |clean| && clean[i] == c[k];
    }
  }

  /** The last stages keep the order of the dataset ids. */
  lemma FinalStagesIds(clean: seq<CleanRow>)
    ensures IsSubseq(Project(FinalStages(clean), CleanIdOf), Project(clean, CleanIdOf))
  {
    var a := Filter(clean, CanonicClean);
    var b := Filter(a, CanonicShort);
    var c := DedupBy(b, CanonicOf);
    FilterSubseq(clean, CanonicClean);
    FilterSubseq(a, CanonicShort);
    DedupFromSubseq(b, CanonicOf, {});
    SubseqTrans(b, a, clean);
    SubseqTrans(c, b, clean);
    SubseqProject(c, clean, CleanIdOf);
  }
}
