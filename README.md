# Reaction preprocessing pipeline — a Dafny model

This project models the data-preparation scripts of a retrosynthesis
benchmark. The scripts turn raw reaction datasets (USPTO and Pistachio) into
filtered, template-labelled and split tables. Five stages are modelled:

- **Initialisation** (`preprocessing/1_initialisation.py`):
  - fixed-size batching and its batch count;
  - the result bookkeeping of atom-map re-mapping, with a batch fallback to
    one reaction at a time and `">>"` for a reaction that fails alone;
  - the filter that drops US patents.
- **Cleaning** (`preprocessing/2_cleaning.py`):
  - the per-reaction string steps, each mapping a reaction SMILES to a
    rewritten reaction or an `"Error: ..."` sentinel;
  - `clean_dataset`, the fixed pipeline of stage maps, "Error" masks and
    keep-first de-duplications over an ordered table.
- **Template extraction** (`preprocessing/LocalTemplate/extract_from_train_data.py`):
  - the extractor settings merge;
  - the template label encoder (three or four `_`-joined fields);
  - the first-occurrence-wins template registry, with frequencies, edit
    counters and one label (or `"NaN"`) per record.
- **Template filtering** (`preprocessing/3_template_filtering.py`): the
  group filter that keeps templates seen more than a threshold number of
  times, and the `template` column check.
- **Template splitting** (`preprocessing/5_template_splitting.py`):
  - the greedy product split into train, val and test sets;
  - the narrow and broad template splits;
  - the in-distribution / out-of-distribution partition of an external set.

Modules:

| file | module | models |
|---|---|---|
| `wrappers.dfy` | `Wrappers` | `Option` |
| `text.dfy` | `Text` | Python `str.split`, `join`, `replace`, `in`, `count`, `str(int)` |
| `seqs.dfy` | `Seqs` | masks, keep-first `drop_duplicates`, column projection, subsequences |
| `chemistry.dfy` | `Chemistry` | atoms, bonds and molecules; the RDKit and rxn-chemutils calls as a record of functions (`Toolkit`) |
| `cleaning.dfy` | `Cleaning` | the per-reaction steps of `2_cleaning.py` |
| `cleaning_facts.dfy` | `CleaningFacts` | properties of those steps |
| `cleaning_pipeline.dfy` | `CleaningPipeline` | `clean_dataset` |
| `template_extraction.dfy` | `TemplateExtraction` | `extract_from_train_data.py` |
| `template_filtering.dfy` | `TemplateFiltering` | `3_template_filtering.py` |
| `template_splitting.dfy` | `TemplateSplitting` | `5_template_splitting.py` |
| `initialisation.dfy` | `Initialisation` | `batch`, `number_batches`, `remap` and `remove_us_patents` |

Conventions:

- **Tables.** A pandas frame is an ordered `seq` of rows. A boolean mask is
  `Filter` and keeps order. `drop_duplicates(col)` keeps the first row of
  each value. `isin` is set membership.
- **Exceptions.** A Python exception that escapes a row function
  (`split(">>")[1]` on a string without `>>`, a missing dictionary key)
  is `None`. A stage whose `apply` meets one makes the whole run `None`.
- **Foreign code.** Each foreign call is a function parameter, not an axiom:
  - RDKit and rxn-chemutils: `Toolkit`;
  - the template extractor: `Extractor`;
  - RXNMapper: `Mapper`;
  - pandas' seeded shuffles and samplers: the shuffled group order and
    sampler functions.
- **Imperative code.** Loops in the source are methods with loop
  invariants. Each is proved equal to a specification function, and the
  lemmas are stated about that function. `remove_us_patents` adds a column
  to the caller's frame, so it is a method on a class (`PatentTable`).
  `broad_template_split` rewrites `sets[0]` in place, so it is a method on
  an `array`.

## Model

| member | source | states |
|---|---|---|
| Chemistry.HeavyAtomCount | preprocessing/2_cleaning.py:118 | the heavy-atom count is the number of atoms whose atomic number exceeds 1 (hydrogen), so never more than the atoms |
| Chemistry.UnspecifiedBonds | preprocessing/2_cleaning.py:46-49 | the collected indices are exactly the bonds of unspecified type, each in range, in increasing bond order |
| Cleaning.DigitRunLength | preprocessing/2_cleaning.py:52 | the `\d+` of the dummy-label pattern matches the longest run of leading digits, stopping at the first non-digit |
| Cleaning.DummyLabelLength | preprocessing/2_cleaning.py:52 | the result is the length of the `[<digits>*]` label at the front of the string, the only length at which such a label ends there, and 0 exactly when the string does not start with one |
| Cleaning.Tidy | preprocessing/2_cleaning.py:52 | after the label removal and the three replacements, no `~` and no `*` is left |
| Cleaning.UntangleCompound | preprocessing/2_cleaning.py:43-58 | an untangled compound has no `~`, whether fragmenting succeeds or the fallback replaces `~` by `.` |
| Cleaning.JoinReactantsReagents | preprocessing/2_cleaning.py:68-69 | a reaction that already contains `>>` is returned unchanged |
| Cleaning.RemoveFragmentInfo | preprocessing/2_cleaning.py:76-78 | the result is the part before the first space: a prefix of the input, with no space, and followed by a space whenever it is shorter |
| Cleaning.NoCarbon | preprocessing/2_cleaning.py:135-142 | `no_carbon` completes only when the reaction has a product that parses; it returns the reaction exactly when the product has a carbon atom, and the "no organic product" sentinel otherwise |
| Cleaning.NoSentinelHasTwoRoles | preprocessing/2_cleaning.py:82-83 | a string without `>`, such as any error sentinel, is one piece on `split(">>")`, so taking its product raises |
| Cleaning.CollectUnspecifiedBonds | preprocessing/2_cleaning.py:46-49 | the bond loop collects exactly the unspecified bonds, as `Chemistry.UnspecifiedBonds` characterises them |
| Cleaning.UntangleMolecule | preprocessing/2_cleaning.py:43-58 | the loop over one molecule gives the untangled text of that molecule: itself when it has no `~`, the fragmented and tidied SMILES when it parses, and the `~` replaced by `.` otherwise |
| Cleaning.UntangleRole | preprocessing/2_cleaning.py:39-60 | the loop over the molecules of one role joins their untangled texts with `.`, in order |
| Cleaning.UntangleTildes | preprocessing/2_cleaning.py:35-63 | the nested role and compound loops compute the untangled reaction whose properties `CleaningFacts.UntangledDefined`, `UntangledHasNoTildes` and `UntangledIdentity` state |
| Cleaning.ClearUnusedMapNumbers | preprocessing/2_cleaning.py:91-97 | the atom loop clears the map numbers that the product lacks, and sets `used` exactly when some atom's map number is in the product (see `CleaningFacts.DemapSpec`) |
| Cleaning.ReduceReactant | preprocessing/2_cleaning.py:87-99 | one reactant is kept exactly when it parses and some atom carries a map number of the product, and then its text is the SMILES with the other map numbers cleared |
| Cleaning.ReducedSurvivingSnoc | preprocessing/2_cleaning.py:86-99 | handling one more reactant appends its reduced text to the kept ones exactly when it is kept, and leaves them as they were otherwise |
| Cleaning.RemoveReagents | preprocessing/2_cleaning.py:81-101 | the reactant loop computes the reagent-free reaction whose properties `CleaningFacts.SurvivingSpec` and `WithoutReagentsKeepsProduct` state |
| Cleaning.StripDummyLabels | preprocessing/2_cleaning.py:52 | `re.sub` of the dummy-label pattern: scanning from the left, every `[<digits>*]` label is dropped and every other character kept (properties in `Tidy`) |
| Cleaning.UntangleSide | preprocessing/2_cleaning.py:39-60 | one role: its `.`-separated molecules, each untangled, rejoined with `.` (properties in `CleaningFacts.UntangleSideAvoids` and `UntangleSideIdentity`) |
| Cleaning.Untangled | preprocessing/2_cleaning.py:35-63 | the whole reaction: its three `>`-separated roles untangled and rejoined, raising without a third role (properties in `CleaningFacts.UntangledDefined`, `UntangledHasNoTildes` and `UntangledIdentity`) |
| Cleaning.MapNumbers | preprocessing/2_cleaning.py:84 | the digits of every `:<digits>]` tag of the product (properties in `CleaningFacts.MapNumbersSpec`) |
| Cleaning.Demap | preprocessing/2_cleaning.py:91-97 | every atom whose map number the product lacks loses it (properties in `CleaningFacts.DemapSpec`) |
| Cleaning.Surviving | preprocessing/2_cleaning.py:86-99 | the reactants that parse and share a map number with the product, in order (properties in `CleaningFacts.SurvivingSpec`) |
| Cleaning.WithoutReagents | preprocessing/2_cleaning.py:81-101 | the surviving reactants, reduced and joined with `.`, then `>>` and the product; raises without `>>` (properties in `CleaningFacts.WithoutReagentsKeepsProduct`) |
| Cleaning.ReactantCountFilter | preprocessing/2_cleaning.py:104-110 | the reaction when it has one to four reactants, the "too many reactants" sentinel otherwise (properties in `CleaningFacts.ReactantCountByDots`) |
| Cleaning.IsHeavy | preprocessing/2_cleaning.py:116-121 | a product parses and has more than five heavy atoms |
| Cleaning.SeveralProducts | preprocessing/2_cleaning.py:115-127 | the several-products branch: "invalid product" when a product does not parse, the reactants with the one heavy product, or "too many products" (properties in `CleaningFacts.MultiproductKeepsSoleHeavy`, `MultiproductRejects` and `MultiproductUnparsable`) |
| Cleaning.MultiproductFixer | preprocessing/2_cleaning.py:113-132 | raises without `>>`; several products go to `SeveralProducts`; one product keeps the reaction when it parses (properties in `CleaningFacts.MultiproductSingle` and the lemmas above) |
| Cleaning.RemoveStereoalchemy | preprocessing/2_cleaning.py:145-158 | when the product has `@` and the reactants none, every occurrence of the product text is replaced by its stereo-free SMILES (properties in `CleaningFacts.RemoveStereoalchemyRewritesProduct`) |
| Cleaning.ProductInReactants | preprocessing/2_cleaning.py:161-167 | the sentinel when the product is one of the reactants, the reaction otherwise (properties in `CleaningFacts.ProductInReactantsSpec`) |
| Cleaning.TooLong | preprocessing/2_cleaning.py:221-223 | a reaction longer than 512 characters |
| CleaningFacts.TwoRolesHaveArrow | preprocessing/2_cleaning.py:82-83 | a string with a product after `>>` contains `>` |
| CleaningFacts.NotASentinel | preprocessing/2_cleaning.py:104-167 | a string with two roles is none of the six error sentinels |
| CleaningFacts.ArrowIsNoSentinel | preprocessing/2_cleaning.py:104-167 | a string containing `>` is none of the six error sentinels |
| CleaningFacts.UntangledDefined | preprocessing/2_cleaning.py:37-62 | `untangle_tildes` raises exactly when the string has fewer than two `>` (`new_rxn[2]` does not exist) |
| CleaningFacts.UntangleSideAvoids | preprocessing/2_cleaning.py:39-60 | an untangled role has no `~` |
| CleaningFacts.UntangledHasNoTildes | preprocessing/2_cleaning.py:35-63 | an untangled reaction has no `~` |
| CleaningFacts.UntangleSideIdentity | preprocessing/2_cleaning.py:41-60 | a role without `~` is left as it is: splitting on `.` and rejoining is the identity |
| CleaningFacts.UntangledIdentity | preprocessing/2_cleaning.py:35-63 | a reaction with exactly two `>` and no `~` is returned unchanged |
| CleaningFacts.JoinReactantsReagentsDefined | preprocessing/2_cleaning.py:66-73 | the step raises exactly when the string has no `>>` and fewer than two `>` |
| CleaningFacts.JoinReactantsReagentsRoles | preprocessing/2_cleaning.py:70-72 | on `R>A>P` without `>>`, the result has roles `R.A` and `P` around a `>>`, and still exactly two `>` |
| CleaningFacts.RemoveFragmentInfoIdempotent | preprocessing/2_cleaning.py:78 | removing fragment info twice equals removing it once |
| CleaningFacts.MapNumbersSpec | preprocessing/2_cleaning.py:84 | a string is among the product's map numbers exactly when the product has a `:<digits>]` tag with those digits |
| CleaningFacts.TagAtHead | preprocessing/2_cleaning.py:84 | a `:<digits>]` tag at the start of the text is the one the scan reads there, with exactly its digits |
| CleaningFacts.TagShift | preprocessing/2_cleaning.py:84 | a tag found after the first character is a tag of the whole text one position further on |
| CleaningFacts.TagUnshift | preprocessing/2_cleaning.py:84 | a tag of the text past its first character is a tag of the rest |
| CleaningFacts.DemapSpec | preprocessing/2_cleaning.py:92-97 | clearing keeps every atom, its element and the bonds; a kept map number is one the product has; a number the product has is never cleared; an atom without a map number stays without one |
| CleaningFacts.SurvivingSpec | preprocessing/2_cleaning.py:86-99 | the kept reactants are a subsequence of the reactants, and a reactant is kept exactly when it parses and shares a map number with the product |
| CleaningFacts.ReducedAvoidsArrow | preprocessing/2_cleaning.py:99-100 | the rejoined reactants contain no `>` when the writer never writes one |
| CleaningFacts.WithoutReagentsKeepsProduct | preprocessing/2_cleaning.py:81-101 | on a two-role reaction, `remove_reagents` completes and leaves the product text after `>>` unchanged |
| CleaningFacts.ReactantCountByDots | preprocessing/2_cleaning.py:104-110 | the reaction passes exactly when its reactant role has at most three `.` (one to four pieces); otherwise the result is the "too many reactants" sentinel |
| CleaningFacts.MultiproductKeepsSoleHeavy | preprocessing/2_cleaning.py:114-125 | with several parsed products and exactly one heavier than five atoms, the result is the reactants, `>>` and that product |
| CleaningFacts.MultiproductUnparsable | preprocessing/2_cleaning.py:116-120 | with several products one of which does not parse, the result is "invalid product" whatever the other products are |
| CleaningFacts.MultiproductRejects | preprocessing/2_cleaning.py:114-127 | with several products and no heavy one or two heavy ones, the result is "too many products" if all parse and "invalid product" otherwise |
| CleaningFacts.MultiproductSingle | preprocessing/2_cleaning.py:128-132 | with one product, the reaction passes exactly when that product parses; otherwise the result is the "product smiles error" sentinel |
| CleaningFacts.RemoveStereoalchemyRewritesProduct | preprocessing/2_cleaning.py:145-158 | when the product has `@` and the reactants do not, the product is replaced by its stereo-free SMILES and the reactants are kept |
| CleaningFacts.NoMatchBeforeProduct | preprocessing/2_cleaning.py:149-158 | a product text with `@` after reactants without `@` and the `>>` occurs at no earlier position than its own, so the replacement can only hit the product |
| CleaningFacts.ProductInReactantsSpec | preprocessing/2_cleaning.py:161-167 | the sentinel is returned exactly when the product equals one of the `.`-separated reactants; otherwise the reaction is returned unchanged |
| CleaningPipeline.MapRxn | preprocessing/2_cleaning.py:236 | a stage's `apply` completes exactly when the step is defined on every row; it keeps the rows and their ids and rewrites each `rxn_map` |
| CleaningPipeline.FilterIds | preprocessing/2_cleaning.py:231 | a mask keeps the dataset ids in their original order |
| CleaningPipeline.DedupIds | preprocessing/2_cleaning.py:232 | keep-first de-duplication keeps the dataset ids in their original order |
| CleaningPipeline.Apply | preprocessing/2_cleaning.py:236 | a row-function stage: `MapRxn` on the frame, `None` once a stage has raised (properties in `ApplyRaises` and `ApplyShrinks`) |
| CleaningPipeline.DedupRxn | preprocessing/2_cleaning.py:237 | `drop_duplicates("rxn_map")` unless a stage has raised (properties in `DedupRxnShrinks`) |
| CleaningPipeline.DropErrorRows | preprocessing/2_cleaning.py:257 | the "Error" mask on `rxn_map` unless a stage has raised (properties in `DropErrorRowsShrinks`) |
| CleaningPipeline.SelectedRows | preprocessing/2_cleaning.py:228-232 | the first 1000 rows, those with two `>`, de-duplicated on `rxn_map` (properties in `SelectedRowsSpec`) |
| CleaningPipeline.Rewritten | preprocessing/2_cleaning.py:236-252 | untangle, join, fragment-info removal and reagent removal, each followed by de-duplication (properties in `RewrittenShrinks`) |
| CleaningPipeline.Filtered | preprocessing/2_cleaning.py:256-279 | reactant count, multi-product, carbon, stereochemistry and product-in-reactants stages with their masks and de-duplications (properties in `FilteredShrinks`) |
| CleaningPipeline.Canonicalised | preprocessing/2_cleaning.py:283-284 | canonicalisation followed by the "Error" mask (properties in `CanonicalisedShrinks`) |
| CleaningPipeline.Staged | preprocessing/2_cleaning.py:226-284 | every stage that rewrites `rxn_map`, from the raw rows (properties in `StagedShrinks`) |
| CleaningPipeline.Cleaned | preprocessing/2_cleaning.py:226-298 | the whole of `clean_dataset`: the staged rows with `canonic_rxn` added and the last stages applied, `None` when a stage raised (properties in `CleanedSpec`) |
| CleaningPipeline.SelectedRowsSpec | preprocessing/2_cleaning.py:228-232 | the selection has at most 1000 rows of the head, each with two `>`, distinct `rxn_map`s and ids in input order, and keeps the first row of every `rxn_map` among the two-`>` rows |
| CleaningPipeline.SelectedRowsUntangle | preprocessing/2_cleaning.py:228-237 | on the selected rows the untangling stage never raises |
| CleaningPipeline.ApplyRaises | preprocessing/2_cleaning.py:236 | a row-function stage stops the run exactly when an earlier stage did or its row function raises on one of the rows |
| CleaningPipeline.ApplyShrinks | preprocessing/2_cleaning.py:236 | a row-function stage keeps the rows and exactly their ids |
| CleaningPipeline.DedupRxnShrinks | preprocessing/2_cleaning.py:237 | de-duplication only drops rows, keeps ids in order and leaves distinct `rxn_map`s, each row an input row |
| CleaningPipeline.DropErrorRowsShrinks | preprocessing/2_cleaning.py:257 | the mask only drops rows, keeps ids in order and leaves no `rxn_map` containing "Error" |
| CleaningPipeline.DedupApplyShrinks | preprocessing/2_cleaning.py:236-237 | a rewriting stage with its de-duplication only drops rows, keeps ids in order and leaves distinct `rxn_map`s |
| CleaningPipeline.DropApplyShrinks | preprocessing/2_cleaning.py:256-257 | a rewriting stage with its mask only drops rows, keeps ids in order and leaves no "Error" |
| CleaningPipeline.DedupDropApplyShrinks | preprocessing/2_cleaning.py:266-268 | a rewriting stage with its mask and de-duplication only drops rows, keeps ids in order and leaves distinct `rxn_map`s without "Error" |
| CleaningPipeline.RewrittenShrinks | preprocessing/2_cleaning.py:236-252 | the rewriting stages only drop rows, keep ids in order and leave distinct `rxn_map`s |
| CleaningPipeline.FilteredShrinks | preprocessing/2_cleaning.py:256-279 | the filtering stages only drop rows, keep ids in order and leave distinct `rxn_map`s without "Error" |
| CleaningPipeline.CanonicalisedShrinks | preprocessing/2_cleaning.py:283-284 | canonicalisation and its mask only drop rows, keep ids in order and leave no "Error" |
| CleaningPipeline.StagedShrinks | preprocessing/2_cleaning.py:226-284 | the rewriting stages leave at most 1000 rows, ids in input order, none with "Error" in `rxn_map` |
| CleaningPipeline.WithCanonicIds | preprocessing/2_cleaning.py:288 | adding the `canonic_rxn` column keeps the ids |
| CleaningPipeline.FinishedSpec | preprocessing/2_cleaning.py:288-297 | on at most 1000 rows without "Error" in `rxn_map`, the column and the last stages give a table with all the output properties and ids in order |
| CleaningPipeline.FinishedCanonic | preprocessing/2_cleaning.py:288-297 | each `canonic_rxn` left is `remove_mapping` of its own row's `rxn_map` |
| CleaningPipeline.CleanedSpec | preprocessing/2_cleaning.py:226-298 | when no row function raises, the output has all the output properties, ids in input order, and each `canonic_rxn` is `remove_mapping` of its row's `rxn_map` |
| CleaningPipeline.CleanDataset | preprocessing/2_cleaning.py:226-298 | the stage-by-stage run returns exactly `Cleaned`, the composition of all the stages; when no row function raises its output has at most 1000 rows, no "Error" in `rxn_map` or `canonic_rxn`, every `canonic_rxn` at most 512 characters and pairwise distinct, and ids in input order |
| CleaningPipeline.SelectRows | preprocessing/2_cleaning.py:228-232 | the head, the two-`>` mask and the de-duplication compute `SelectedRows`: at most 1000 rows, each with exactly two `>`, ids in input order |
| CleaningPipeline.UntangleStageTotal | preprocessing/2_cleaning.py:231-237 | after the two-`>` mask, the untangling stage never raises |
| CleaningPipeline.RewriteStages | preprocessing/2_cleaning.py:236-252 | the four rewriting stages, each stopping the run when its row function raises, compute `Rewritten`; they never add rows, keep ids in order and leave distinct `rxn_map`s |
| CleaningPipeline.FilterStages | preprocessing/2_cleaning.py:256-279 | the five filtering stages compute `Filtered`; they never add rows, keep ids in order and leave distinct `rxn_map`s without "Error" |
| CleaningPipeline.CanonicaliseStage | preprocessing/2_cleaning.py:283-284 | canonicalisation and its mask compute `Canonicalised`; no rows are added, ids keep their order and no `rxn_map` contains "Error" |
| CleaningPipeline.FinalStagesRows | preprocessing/2_cleaning.py:287-297 | every row left is an input row whose `canonic_rxn` has no "Error" and at most 512 characters |
| CleaningPipeline.FinalStagesOutput | preprocessing/2_cleaning.py:287-297 | from at most 1000 rows without "Error" in `rxn_map`, the last stages give a table with all the output properties, including distinct `canonic_rxn` |
| CleaningPipeline.FinalStagesIds | preprocessing/2_cleaning.py:287-297 | the last stages keep the ids in order |
| TemplateExtraction.DefaultSetting | preprocessing/LocalTemplate/extract_from_train_data.py:30 | the default setting has exactly the seven listed keys |
| TemplateExtraction.BuildTemplateExtractor | preprocessing/LocalTemplate/extract_from_train_data.py:29-35 | the overwrite loop and the retro rule compute the merged setting of `MergedSettingsSpec` |
| TemplateExtraction.OverwriteSpec | preprocessing/LocalTemplate/extract_from_train_data.py:31-33 | exactly the setting keys present in the arguments take the argument's value; every other key keeps its value |
| TemplateExtraction.MergedSettingsSpec | preprocessing/LocalTemplate/extract_from_train_data.py:29-35 | the merge raises exactly when `retro` is absent; otherwise it has the seven default keys, `use_symbol` is true when `retro` is truthy, and every other key is the argument's value if given, else the default |
| TemplateExtraction.GetReactionTemplate | preprocessing/LocalTemplate/extract_from_train_data.py:39-42 | a result exists exactly when the reaction has two roles on `>>` and the extractor succeeds on the query of reactants, products and id |
| TemplateExtraction.CodeUpToSpec | preprocessing/LocalTemplate/extract_from_train_data.py:45-47 | a change code exists exactly when keys 1..n are all present; it has no `_`, and is empty exactly when n is 0 |
| TemplateExtraction.FullTemplateFields | preprocessing/LocalTemplate/extract_from_train_data.py:44-51 | the label exists exactly when each change dictionary is keyed 1..len; it has three `_`-fields when the chirality code is empty and four otherwise, the first being the template |
| TemplateExtraction.FullTemplateNotNaN | preprocessing/LocalTemplate/extract_from_train_data.py:44-51 | every label contains `_`, so no label is the "NaN" sentinel |
| TemplateExtraction.Prepare | preprocessing/LocalTemplate/extract_from_train_data.py:64-76 | a prepared record's label contains `_` and is not "NaN"; when `use_stereo` is falsy the chirality change is empty |
| TemplateExtraction.LabelWithoutStereo | preprocessing/LocalTemplate/extract_from_train_data.py:72-76 | without stereochemistry every label has three fields, the first being the template |
| TemplateExtraction.EditSitesDefined | preprocessing/LocalTemplate/extract_from_train_data.py:78 | the edit-site dictionary exists exactly when every edit entry has at least three elements |
| TemplateExtraction.EditSitesKeys | preprocessing/LocalTemplate/extract_from_train_data.py:78 | its keys are exactly the edit types |
| TemplateExtraction.EditSitesLast | preprocessing/LocalTemplate/extract_from_train_data.py:78 | each edit type maps to element 2 of the last entry of that type |
| TemplateExtraction.CountEditsOk | preprocessing/LocalTemplate/extract_from_train_data.py:86-102 | the counting loop completes exactly when every entry has at least one element |
| TemplateExtraction.CountEditsTally | preprocessing/LocalTemplate/extract_from_train_data.py:86-102 | each key of each counter grows by the number of entries, before the first failure, that bump that key on that side |
| TemplateExtraction.GetInc | preprocessing/LocalTemplate/extract_from_train_data.py:84 | counting a key once more raises its count by one and leaves every other count unchanged |
| TemplateExtraction.FirstOccurrencesSpec | preprocessing/LocalTemplate/extract_from_train_data.py:118 | the template-table order is distinct and holds exactly the labels other than "NaN" |
| TemplateExtraction.FailValid | preprocessing/LocalTemplate/extract_from_train_data.py:110-111 | appending "NaN" keeps the registry invariant |
| TemplateExtraction.TallyEffect | preprocessing/LocalTemplate/extract_from_train_data.py:86-111 | counting changes only the two counters, and at most appends "NaN" |
| TemplateExtraction.TallyValid | preprocessing/LocalTemplate/extract_from_train_data.py:86-111 | counting keeps the registry invariant |
| TemplateExtraction.RegisteredKnownValid | preprocessing/LocalTemplate/extract_from_train_data.py:77-84 | appending and counting a known label keeps the registry invariant |
| TemplateExtraction.RegisteredNewValid | preprocessing/LocalTemplate/extract_from_train_data.py:77-84 | registering, appending and counting a new label keeps the registry invariant |
| TemplateExtraction.UnseenLabel | preprocessing/LocalTemplate/extract_from_train_data.py:77-84 | in a consistent registry a template without an entry has no label and no frequency yet |
| TemplateExtraction.FirstOccurrencesNew | preprocessing/LocalTemplate/extract_from_train_data.py:77-82 | a label not seen before goes last in the insertion order |
| TemplateExtraction.FirstOccurrencesSeen | preprocessing/LocalTemplate/extract_from_train_data.py:77-82 | a label seen before leaves the insertion order unchanged |
| TemplateExtraction.FreqNew | preprocessing/LocalTemplate/extract_from_train_data.py:82-84 | a new template gets a frequency equal to its one appearance and every other frequency still counts its label's appearances |
| TemplateExtraction.FreqSeen | preprocessing/LocalTemplate/extract_from_train_data.py:82-84 | counting a known template once more keeps every frequency equal to its label's number of appearances |
| TemplateExtraction.NewKeyValid | preprocessing/LocalTemplate/extract_from_train_data.py:77-84 | storing a new template, appending it to the order and its label to the labels, and counting it keeps the registry consistent |
| TemplateExtraction.SeenKeyValid | preprocessing/LocalTemplate/extract_from_train_data.py:82-84 | appending and counting the label of a stored template keeps the registry consistent |
| TemplateExtraction.StepValid | preprocessing/LocalTemplate/extract_from_train_data.py:63-111 | one record keeps the registry invariant |
| TemplateExtraction.RunValid | preprocessing/LocalTemplate/extract_from_train_data.py:53-111 | the invariant holds after any number of records |
| TemplateExtraction.ValidSpec | preprocessing/LocalTemplate/extract_from_train_data.py:77-84 | under the invariant, a label is a key of `TemplateFreq` and of `TemplateHs` exactly when it was appended, its frequency is how often it was appended, and the table order has no repeats |
| TemplateExtraction.StepLabels | preprocessing/LocalTemplate/extract_from_train_data.py:64-111 | a record that is not registered appends exactly "NaN" and leaves the stored templates, their order, their frequencies and the edit counters as they were; a registered record appends its label and then "NaN" when counting its edits raises, and its label alone otherwise |
| TemplateExtraction.RunLabels | preprocessing/LocalTemplate/extract_from_train_data.py:63-111 | after n records there are n labels plus one per record that raised after appending its label, so between n and 2n |
| TemplateExtraction.RunLabelsOnePerRecord | preprocessing/LocalTemplate/extract_from_train_data.py:63-111 | there is exactly one label per record exactly when no record raises after appending its label |
| TemplateExtraction.NoLateFailures | preprocessing/LocalTemplate/extract_from_train_data.py:82-111 | no late failure is counted exactly when no record fails after appending its label |
| TemplateExtraction.LateFailures | preprocessing/LocalTemplate/extract_from_train_data.py:82-111 | the number of records among the first n that raise in the counting after their label was appended (properties in `RunLabels`) |
| TemplateExtraction.StepKeepsEntries | preprocessing/LocalTemplate/extract_from_train_data.py:77-81 | a stored entry is never overwritten by a later record |
| TemplateExtraction.FirstOccurrenceWins | preprocessing/LocalTemplate/extract_from_train_data.py:77-81 | the edit sites and changes stored for a label stay those of its first record for the rest of the run |
| TemplateExtraction.ExtractRecord | preprocessing/LocalTemplate/extract_from_train_data.py:64-111 | one pass of the loop body performs the registry step |
| TemplateExtraction.ExtractTemplates | preprocessing/LocalTemplate/extract_from_train_data.py:53-120 | the returned labels and template table are those of the registry after all records, and that registry satisfies the invariant |
| TemplateExtraction.TemplateInfos | preprocessing/LocalTemplate/extract_from_train_data.py:118 | one table row per registered label, in first-occurrence order, with its stored entry and frequency |
| TemplateExtraction.CountEditSites | preprocessing/LocalTemplate/extract_from_train_data.py:86-102 | the counting loop computes the counters and completion flag of `CountEditsTally` and `CountEditsOk` |
| TemplateExtraction.MergedSettings | preprocessing/LocalTemplate/extract_from_train_data.py:29-35 | the default setting overwritten by the given arguments, with `use_symbol` set from `retro`; raises without `retro` (properties in `MergedSettingsSpec`) |
| TemplateExtraction.FullTemplate | preprocessing/LocalTemplate/extract_from_train_data.py:44-51 | the template and the H, charge and (when non-empty) chirality codes joined with `_` (properties in `FullTemplateFields` and `FullTemplateNotNaN`) |
| TemplateExtraction.EditSites | preprocessing/LocalTemplate/extract_from_train_data.py:78 | each edit type mapped to element 2 of its last entry, raising on a short entry (properties in `EditSitesDefined`, `EditSitesKeys` and `EditSitesLast`) |
| TemplateExtraction.CountEdits | preprocessing/LocalTemplate/extract_from_train_data.py:86-102 | the counting loop over the edit entries as a recursion, with its completion flag (properties in `CountEditsOk` and `CountEditsTally`) |
| TemplateExtraction.Registered | preprocessing/LocalTemplate/extract_from_train_data.py:77-84 | a new label is stored with its edit sites and changes; then the label is appended and counted (properties in `RegisteredNewValid` and `RegisteredKnownValid`) |
| TemplateExtraction.Tally | preprocessing/LocalTemplate/extract_from_train_data.py:86-111 | the edits are counted, and "NaN" is appended when the counting raises (properties in `TallyEffect` and `TallyValid`) |
| TemplateExtraction.Step | preprocessing/LocalTemplate/extract_from_train_data.py:64-111 | one record: "NaN" when it fails before its label is appended, otherwise registration and counting (properties in `StepValid`, `StepLabels` and `StepKeepsEntries`) |
| TemplateExtraction.Run | preprocessing/LocalTemplate/extract_from_train_data.py:63-111 | the registry after the first n records (properties in `RunValid`, `RunLabels` and `FirstOccurrenceWins`) |
| TemplateFiltering.LoadDf | preprocessing/3_template_filtering.py:15-19 | loading fails exactly when the table has no `template` column, and otherwise returns the rows |
| TemplateFiltering.KeepLargeSpec | preprocessing/3_template_filtering.py:24-25 | the kept rows are a subsequence, and a row is kept exactly when its group is larger than the threshold |
| TemplateFiltering.KeepLargeGroupSize | preprocessing/3_template_filtering.py:24-25 | a group is kept whole or dropped whole |
| TemplateFiltering.KeepLargeAll | preprocessing/3_template_filtering.py:25 | rows all in large groups are all kept |
| TemplateFiltering.KeepLargeNone | preprocessing/3_template_filtering.py:25 | rows none of which is in a large group are all dropped |
| TemplateFiltering.FilterTemplatesSpec | preprocessing/3_template_filtering.py:22-28 | a row is kept exactly when its template occurs more than `threshold` times; the output is a subsequence and keeps each template's whole group or none of it |
| TemplateFiltering.FilterTemplatesIdempotent | preprocessing/3_template_filtering.py:22-28 | filtering twice gives the same rows as filtering once |
| TemplateFiltering.KeepLargeMonotone | preprocessing/3_template_filtering.py:25 | a higher threshold keeps a subsequence of what a lower one keeps |
| TemplateFiltering.FilterTemplatesMonotone | preprocessing/3_template_filtering.py:22-28 | a higher threshold keeps a subsequence of what a lower one keeps |
| TemplateFiltering.FilterDfIgnoresThreshold | preprocessing/3_template_filtering.py:39-42 | as written, `filter_df` gives the same table for every threshold: the one for the default 5 |
| TemplateFiltering.PistachioThresholdIgnored | preprocessing/3_template_filtering.py:39-48 | six rows of one template survive the Pistachio call with threshold 20 as written, and are dropped as intended |
| TemplateFiltering.FilterDfIntendedSpec | preprocessing/3_template_filtering.py:39-42 | with the threshold passed on, loading fails exactly without a `template` column, and a row is kept exactly when its template occurs more than `threshold` times |
| TemplateFiltering.FilterTemplates | preprocessing/3_template_filtering.py:22-28 | the rows whose template occurs more than `threshold` times (properties in `FilterTemplatesSpec`, `FilterTemplatesIdempotent` and `FilterTemplatesMonotone`) |
| TemplateFiltering.FilterDf | preprocessing/3_template_filtering.py:39-42 | as written: the loaded table filtered with the default threshold 5, whatever `threshold` is (properties in `FilterDfIgnoresThreshold`) |
| TemplateFiltering.FilterDfIntended | preprocessing/3_template_filtering.py:39-42 | as intended: the loaded table filtered with the given threshold (properties in `FilterDfIntendedSpec`) |
| TemplateSplitting.GroupCounts | preprocessing/5_template_splitting.py:38-41 | one count per group in the shuffled order, each the number of rows with that key |
| TemplateSplitting.SelectSpec | preprocessing/5_template_splitting.py:64-67 | an `isin` selection is a subsequence, and holds a row exactly when its key is in the set |
| TemplateSplitting.RejectSpec | preprocessing/5_template_splitting.py:69 | the negated selection is a subsequence, and holds a row exactly when its key is outside the set |
| TemplateSplitting.SelectRejectPartition | preprocessing/5_template_splitting.py:64-69 | a selection and its negation together are a permutation of the rows |
| TemplateSplitting.ThreeWayPartition | preprocessing/5_template_splitting.py:64-69 | for disjoint key sets, the two selections and the rows in neither together are a permutation of the rows |
| TemplateSplitting.SelectMonotone | preprocessing/5_template_splitting.py:151 | selecting on a larger key set gives a supersequence |
| TemplateSplitting.SelectNothing | preprocessing/5_template_splitting.py:151 | selecting on no keys gives no rows |
| TemplateSplitting.SelectAddKey | preprocessing/5_template_splitting.py:144-151 | adding a new key adds exactly that key's group count to the selection |
| TemplateSplitting.SelectRangeCount | preprocessing/5_template_splitting.py:50-56 | for a repetition-free order, the rows selected by a run of groups number the sum of the run's counts |
| TemplateSplitting.CutFrom | preprocessing/5_template_splitting.py:49-61 | the greedy scan ends within the groups, and takes at least one group when any remains |
| TemplateSplitting.CutFromSpec | preprocessing/5_template_splitting.py:50-61 | before its last group the running count is at most the target; the scan ends when the groups run out or the count exceeds the target |
| TemplateSplitting.CutFromMonotone | preprocessing/5_template_splitting.py:144-148 | a larger target never ends the scan earlier |
| TemplateSplitting.TestScanStep | preprocessing/5_template_splitting.py:50-56 | in the test phase a group is the last test group exactly when it takes the counter above the target, and the val phase then starts at the next group from zero |
| TemplateSplitting.ValScanStep | preprocessing/5_template_splitting.py:57-61 | in the val phase a group is the last val group exactly when it takes the counter above the target |
| TemplateSplitting.ScanGroups | preprocessing/5_template_splitting.py:44-61 | the loop collects as test groups the shortest run of shuffled groups exceeding the target, then as val groups the next such run (or the rest) |
| TemplateSplitting.FullDatasetProductSplit | preprocessing/5_template_splitting.py:44-69 | the two-phase loop with its `test_on` flag and the three masks compute the product split of `ProductSplitPartition` and `ProductSplitSizes` |
| TemplateSplitting.TestValDisjoint | preprocessing/5_template_splitting.py:50-61 | the test products followed by the val products form a prefix of the shuffled order, so the two sets are disjoint |
| TemplateSplitting.ProductSplitPartition | preprocessing/5_template_splitting.py:64-69 | train, val and test are a permutation of the rows; a row is in test or val exactly when its product was selected for it, and in train otherwise; rows sharing a product land in the same set |
| TemplateSplitting.ProductSplitSizes | preprocessing/5_template_splitting.py:50-61 | the test and val counts are sums of their groups; each exceeds `tot` unless the groups run out; before its last group each was at most `tot`; val is empty when test takes every group |
| TemplateSplitting.ProductOfSpec | preprocessing/5_template_splitting.py:104 | the product column is missing (the lambda raises) exactly when the reaction has no `>>`; a product has no `>>`; the product of `R>>P` is `P` when `R` has no `>` |
| TemplateSplitting.FullSplit | preprocessing/5_template_splitting.py:99-105 | `full_split` raises exactly when some reaction has no `>>`; otherwise it is the product split on the product column |
| TemplateSplitting.RoundHalfEven | preprocessing/5_template_splitting.py:139 | Python `round(a/b)`: the result is within half of `a/b`, and even on a tie |
| TemplateSplitting.RoundHalfEvenMonotone | preprocessing/5_template_splitting.py:139 | rounding is monotone, so `tot` does not decrease with the fraction |
| TemplateSplitting.NarrowSets | preprocessing/5_template_splitting.py:151 | one reduced set per input set |
| TemplateSplitting.NarrowTemplateSplit | preprocessing/5_template_splitting.py:128-151 | for each of the fractions 10, 25 and 50, the inner greedy loop and the selection compute the reduced sets of `NarrowSelectedSpec` and `NarrowNested` |
| TemplateSplitting.NarrowSelectedSpec | preprocessing/5_template_splitting.py:139-148 | the selected templates are the shortest non-empty prefix of the shuffled order whose rows exceed the target, or all templates if none does |
| TemplateSplitting.NarrowNested | preprocessing/5_template_splitting.py:133-151 | a larger fraction selects a longer prefix, and each of its reduced sets contains the smaller one's as a subsequence |
| TemplateSplitting.NarrowFracsNested | preprocessing/5_template_splitting.py:133-148 | the template selections for 10, 25 and 50 are nested |
| TemplateSplitting.BroadRounds | preprocessing/5_template_splitting.py:122-124 | three reduced train sets, one per round |
| TemplateSplitting.BroadTemplateSplit | preprocessing/5_template_splitting.py:110-125 | the loop saves the three rounds of `BroadRoundsKeep`, leaves the last in `sets[0]` and no other set changed |
| TemplateSplitting.DedupFromCovers | preprocessing/5_template_splitting.py:124 | de-duplication keeps a row for every value not seen before |
| TemplateSplitting.BroadRoundsKeep | preprocessing/5_template_splitting.py:119-124 | every `must_train` row is in every reduced train set, and each set has no repeated row |
| TemplateSplitting.BroadKeepsTemplates | preprocessing/5_template_splitting.py:119-124 | when `must_train` has a row of every template, every template of the train set keeps a row in every reduced train set |
| TemplateSplitting.BroadRoundsWithin | preprocessing/5_template_splitting.py:122-124 | with a sampler that returns rows of its input, every reduced train set holds only rows of the original train set |
| TemplateSplitting.TemplateTestPartition | preprocessing/5_template_splitting.py:160-161 | the OOD and ID rows are a permutation of the table; a row is ID exactly when some base row has its template, and OOD exactly when none has |
| TemplateSplitting.TemplateTestSets | preprocessing/5_template_splitting.py:155-165 | both test sets are written exactly when each split has at least 10000 rows; the OOD sample has only unseen templates and the ID sample only seen ones |
| TemplateSplitting.ProductSplit | preprocessing/5_template_splitting.py:44-69 | the test and val product groups taken greedily from the shuffled order, and the three masks (properties in `ProductSplitPartition` and `ProductSplitSizes`) |
| TemplateSplitting.ProductOf | preprocessing/5_template_splitting.py:104 | the text after the first `>>`, raising without one (properties in `ProductOfSpec`) |
| TemplateSplitting.NarrowSelected | preprocessing/5_template_splitting.py:139-148 | the templates of the shuffled order up to the one that takes the count above the target (properties in `NarrowSelectedSpec` and `NarrowNested`) |
| TemplateSplitting.BroadStep | preprocessing/5_template_splitting.py:123-124 | one round: the sampled train set followed by `must_train`, de-duplicated (properties in `BroadRoundsKeep` and `BroadRoundsWithin`) |
| TemplateSplitting.TemplateTest | preprocessing/5_template_splitting.py:155-165 | the OOD and ID rows, each sampled and written, raising when the OOD or then the ID rows are fewer than 10000 (properties in `TemplateTestPartition` and `TemplateTestSets`) |
| Initialisation.NumberBatches | preprocessing/1_initialisation.py:89 | `(l - 1) // n + 1` is the ceiling of `l / n`: enough batches to cover `l`, one fewer would not, and 0 for an empty list |
| Initialisation.NumberBatchesUnique | preprocessing/1_initialisation.py:89 | any count with those properties equals `number_batches` |
| Initialisation.Batch | preprocessing/1_initialisation.py:81-84 | the generator loop over `ndx` yields the slices of `ChunksSpec` |
| Initialisation.ChunksSpec | preprocessing/1_initialisation.py:81-84 | the slices concatenate to the input; all but the last have length n, the last is non-empty with length at most n, and there are none only for an empty input |
| Initialisation.ChunksCount | preprocessing/1_initialisation.py:81-89 | the number of slices equals `number_batches` |
| Initialisation.MappedValues | preprocessing/1_initialisation.py:93 | the `mapped_rxn` values are taken one per mapper result, in order |
| Initialisation.MapEachReaction | preprocessing/1_initialisation.py:97-102 | the fallback loop computes the one-at-a-time results of `MapEachSpec` |
| Initialisation.MapChunkReactions | preprocessing/1_initialisation.py:91-102 | one chunk is mapped as a batch, or one reaction at a time when the batch call fails |
| Initialisation.Remap | preprocessing/1_initialisation.py:79-103 | the chunk loop accumulates the results whose length and failure cases `RemapLength` and `MapChunksFails` state |
| Initialisation.MapEachSpec | preprocessing/1_initialisation.py:97-102 | the fallback completes exactly when no reaction hits the uncaught error, and then gives one string per reaction, `">>"` for one the mapper rejects |
| Initialisation.MapChunkLength | preprocessing/1_initialisation.py:91-102 | with a mapper giving one result per input, a chunk yields one string per reaction |
| Initialisation.MapChunksLength | preprocessing/1_initialisation.py:90-102 | with such a mapper, the chunks yield one string per reaction across all chunks |
| Initialisation.RemapLength | preprocessing/1_initialisation.py:79-103 | with such a mapper, `remap` returns exactly one string per input reaction |
| Initialisation.MapChunksFails | preprocessing/1_initialisation.py:90-102 | `remap` raises exactly when some chunk fails as a batch and one of its reactions then fails outside the inner handler |
| Initialisation.RegionUs | preprocessing/1_initialisation.py:67-68 | the region is "US" exactly when the patent starts with "US" |
| Initialisation.RemoveUsPatents | preprocessing/1_initialisation.py:65-70 | the caller's rows are unchanged and gain the region column; the result is the rows whose region is not "US", without that column |
| Initialisation.NonUsRows | preprocessing/1_initialisation.py:65-70 | the result is a subsequence of the rows and holds a row exactly when its patent does not start with "US" |
| Initialisation.Chunks | preprocessing/1_initialisation.py:81-84 | consecutive slices of length `n`, the last possibly shorter (properties in `ChunksSpec` and `ChunksCount`) |
| Initialisation.MapEach | preprocessing/1_initialisation.py:97-102 | one reaction at a time, `">>"` for one the mapper rejects (properties in `MapEachSpec`) |
| Initialisation.MapChunk | preprocessing/1_initialisation.py:91-102 | the batch result when the batch call succeeds, the one-at-a-time fallback otherwise (properties in `MapChunkLength`) |
| Initialisation.RemapResult | preprocessing/1_initialisation.py:79-103 | the results of all chunks concatenated in order (properties in `RemapLength` and `MapChunksFails`) |
| Initialisation.Region | preprocessing/1_initialisation.py:67 | the first two characters of the patent number (properties in `RegionUs`) |

## Left out

- Download, tar extraction, CSV and TSV reading and writing, directory creation, `save_sets`, `save_df` and every `print` and `tqdm` progress bar: these are input and output.
- The `main` functions of every script, and the `KeyboardInterrupt` / `os._exit` branch of `extract_templates`: these are driver code and process control.
- RDKit and rxn-chemutils internals (parsing, writing, `FragmentOnBonds`, substructure search, `RemoveStereochemistry`, `CalcNumHeavyAtoms`, `canonicalise`, `remove_mapping`, `ReactionFromSmarts`): these are foreign code. They are fields of `Chemistry.Toolkit`, and only what the pipeline does with their results is modelled.
- `extract_from_reaction` and RXNMapper: these are foreign code. Their results are the parameters `Extractor` and `Mapper`.
- `size_filter` in `preprocessing/1_initialisation.py:73-76`: it only calls the foreign `remove_atom_mapping`.
- `preprocessing/3_template_extracting.py` is not part of this model: it only reads and writes files around `extract_templates`.
- `pandarallel.parallel_apply` is a sequential map here. The row functions are independent, so the order of evaluation does not matter.
- pandas' reading of the label "NaN" as a missing value, on CSV re-read and in `groupby`: templates are plain strings here.
- `drop_duplicates()` without a column compares whole rows, and the model compares row values. A re-read table whose index differs is not distinguished.
- `TemplateSplitting.FullDatasetProductSplit`: `tot = round(len(data) * 0.05)` is a floating-point product and is a parameter here. The seeded shuffle of the product groups is also a parameter: a repetition-free order of the keys.
- `TemplateSplitting.NarrowTemplateSplit`: `round(len(sets[0]) * frac / 90)` is computed exactly as `RoundHalfEven(len * frac, 90)`. The float division may round differently at an exact tie. The seeded shuffle of the templates is a parameter.
- `TemplateSplitting.BroadTemplateSplit`: the seeded `groupby("template").sample(n=1)` and `sample(frac=...)` are the parameters `pickOne` and `sample`. Only what the concatenation and de-duplication guarantee is proved, not the sizes the sampler gives.
- `TemplateSplitting.TemplateTestSets`: `sample(10000)` is a parameter. Only membership of the sampled rows is stated, not the sample size.
- `TemplateSplitting.FullSplit`: the `products` column that `full_split` adds to the caller's frame is a key function, not a mutation of the frame.
- `Chemistry.Toolkit.molToSmiles` is total: `Chem.MolToSmiles` is taken not to raise on a molecule that parsed, so the bare `except` of `untangle_tildes` (preprocessing/2_cleaning.py:51, 55) is reached only through a parse or fragmentation failure.
- `Initialisation.Batch`: requires `n > 0`. `range` raises on a step of 0 and yields nothing for a negative step, and the source only uses 32.
- `Initialisation.RemapLength`: the one-string-per-input result holds only for a mapper that returns one result per input, which RXNMapper is assumed to do.
- `Text.IsDigit`: the `\d` of the dummy-label pattern and the `[0-9]` of the map-number pattern are both ASCII digits here. On a `str` pattern, Python's `\d` also matches other Unicode decimal digits, which RDKit never writes in a SMILES.
- `preprocessing/3_template_filtering.py:55` calls `main(args)`, but `main` takes no parameter, so the script raises before any filtering. The model treats `main`'s two `filter_df` calls as what runs.

## Findings

| source | as written | input that shows it | evidently intended | confidence | as-written member | corrected member |
|---|---|---|---|---|---|---|
| preprocessing/3_template_filtering.py:39-42 | `filter_df(dataset_name, threshold)` calls `filter_templates(df)` without the threshold, so every call filters at the default 5 | six rows of one template, `filter_df("pistachio", 20)`: all six are kept | `filter_templates(df, threshold)`: Pistachio filtered at 20, so the six rows are dropped | not executed | TemplateFiltering.PistachioThresholdIgnored | TemplateFiltering.FilterDfIntendedSpec |
