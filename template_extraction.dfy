/** The template registry of preprocessing/LocalTemplate/extract_from_train_data.py:
    the extractor settings, the label of a template with its hydrogen,
    charge and chirality changes, and the record-by-record registry that
    keeps the first edit sites and changes seen for every label, counts
    the labels and lists one label (or "NaN") per record. The template
    extractor itself is a function parameter. */
module TemplateExtraction {
  import opened Wrappers
  import opened Text

  // ---------------------------------------------------------------------
  // build_template_extractor

  /** A value of the argument dictionary. */
  datatype Value = Bool(b: bool) | Int(i: int) | Str(s: string)

  /** Python truthiness of a value. */
  predicate Truthy(v: Value)
  {
    match v
    case Bool(b) => b
    case Int(i) => i != 0
    case Str(s) => s != ""
  }

  type Settings = map<string, Value>

  /** The keys of the default setting, in dictionary order. */
  const SettingKeys: seq<string> := ["verbose", "use_stereo", "use_symbol", "max_unmap", "retro", "remote", "least_atom_num"]

  function DefaultSetting(): (s: Settings)
    ensures s.Keys == set k | k in SettingKeys
  {
    map["verbose" := Bool(false), "use_stereo" := Bool(false), "use_symbol" := Bool(false),
        "max_unmap" := Int(5), "retro" := Bool(false), "remote" := Bool(true), "least_atom_num" := Int(2)]
  }

  /** The setting after overwriting, key by key, the entries of `keys`
      that `args` also has. */
  function Overwrite(setting: Settings, args: Settings, keys: seq<string>): Settings
    decreases keys
  {
    if keys == [] then setting
    else Overwrite(if keys[0] in args then setting[keys[0] := args[keys[0]]] else setting, args, keys[1..])
  }

  /** `build_template_extractor`: the setting the extractor is built with;
      `None` when `args` has no "retro" entry (the lookup raises). */
  function MergedSettings(args: Settings): Option<Settings>
  {
    var setting := Overwrite(DefaultSetting(), args, SettingKeys);
    if "retro" !in args then None
    else if Truthy(args["retro"]) then Some(setting["use_symbol" := Bool(true)])
    else Some(setting)
  }

  /** The loop of `build_template_extractor`. */
  method BuildTemplateExtractor(args: Settings) returns (setting: Option<Settings>)
    ensures setting == MergedSettings(args)
  {
    var s := DefaultSetting();
    var i := 0;
    while i < |SettingKeys|
      invariant 0 <= i <= |SettingKeys|
      invariant Overwrite(s, args, SettingKeys[i..]) == Overwrite(DefaultSetting(), args, SettingKeys)
    {
      var k := SettingKeys[i];
      assert SettingKeys[i..][1..] == SettingKeys[i + 1..];
      if k in args {
        s := s[k := args[k]];
      }
      i := i + 1;
    }
    if "retro" !in args {
      return None;
    }
    if Truthy(args["retro"]) {
      s := s["use_symbol" := Bool(true)];
    }
    setting := Some(s);
  }

  /** Overwriting changes exactly the listed keys that `args` has. */
  lemma {:induction false} OverwriteSpec(setting: Settings, args: Settings, keys: seq<string>)
    ensures Overwrite(setting, args, keys).Keys == setting.Keys + (set k | k in keys && k in args)
    ensures forall k :: k in keys && k in args ==> Overwrite(setting, args, keys)[k] == args[k]
    ensures forall k :: k in setting && (k !in keys || k !in args) ==> Overwrite(setting, args, keys)[k] == setting[k]
    decreases keys
  {
    if keys != [] {
      var next := if keys[0] in args then setting[keys[0] := args[keys[0]]] else setting;
      OverwriteSpec(next, args, keys[1..]);
      forall k | k in keys && k in args
        ensures Overwrite(setting, args, keys)[k] == args[k]
      {
        if k != keys[0] {
          assert k in keys[1..];
        }
      }
    }
  }

  /** The merged setting has exactly the seven default keys; "use_symbol"
      is true whenever "retro" is truthy; every other key comes from `args`
      when present there and from the defaults otherwise. */
  lemma MergedSettingsSpec(args: Settings)
    ensures MergedSettings(args).Some? <==> "retro" in args
    ensures MergedSettings(args).Some? ==> MergedSettings(args).value.Keys == DefaultSetting().Keys
    ensures MergedSettings(args).Some? && Truthy(args["retro"]) ==> MergedSettings(args).value["use_symbol"] == Bool(true)
    ensures MergedSettings(args).Some? ==>
              forall k :: k in DefaultSetting() && (k != "use_symbol" || !Truthy(args["retro"])) ==>
                MergedSettings(args).value[k] == if k in args then args[k] else DefaultSetting()[k]
  {
    OverwriteSpec(DefaultSetting(), args, SettingKeys);
  }

  // ---------------------------------------------------------------------
  // get_reaction_template, get_full_template

  /** An atom-index to change dictionary (`H_change`, `Charge_change`,
      `Chiral_change`). */
  type Change = map<int, int>

  /** One entry of the extractor's `edits` dictionary: the edit type and
      its value, whose element 0 holds the bonds and element 2 the edit
      sites. */
  datatype EditEntry = EditEntry(editType: string, fields: seq<seq<int>>)

  /** The extractor's result dictionary; a missing key is `None`. */
  datatype ExtractorResult = ExtractorResult(
    hasReactants: bool,
    reactionSmarts: Option<string>,
    edits: Option<seq<EditEntry>>,
    hChange: Option<Change>,
    chargeChange: Option<Change>,
    chiralChange: Option<Change>)

  /** The dictionary handed to the extractor. */
  datatype Query = Query(reactants: string, products: string, id: int)

  /** `extract_from_reaction` with the built setting; `None` when it raises. */
  type Extractor = Query -> Option<ExtractorResult>

  /** `get_reaction_template`: split the reaction on `>>` and run the
      extractor; `None` when the reaction has no `>>` or the extractor raises. */
  function GetReactionTemplate(extractor: Extractor, rxn: string, id: int): (r: Option<(Query, ExtractorResult)>)
    ensures r.Some? ==> (|Split(rxn, ">>")| >= 2 &&
                         r.value.0 == Query(Split(rxn, ">>")[0], Split(rxn, ">>")[1], id) &&
                         extractor(r.value.0) == Some(r.value.1))
    ensures r.None? ==> (|Split(rxn, ">>")| < 2 ||
                         extractor(Query(Split(rxn, ">>")[0], Split(rxn, ">>")[1], id)).None?)
  {
    var halves := Split(rxn, ">>");
    if |halves| < 2 then None
    else
      var query := Query(halves[0], halves[1], id);
      match extractor(query)
      case None => None
      case Some(result) => Some((query, result))
  }

  /** The codes of keys `1..n` of a change dictionary, concatenated;
      `None` when one of those keys is missing (the lookup raises). */
  function CodeUpTo(m: Change, n: nat): Option<string>
  {
    if n == 0 then Some("")
    else match CodeUpTo(m, n - 1)
      case None => None
      case Some(code) => if n in m then Some(code + IntToStr(m[n])) else None
  }

  /** `''.join([str(change[k+1]) for k in range(len(change))])`. */
  function ChangeCode(m: Change): Option<string>
  {
    CodeUpTo(m, |m|)
  }

  /** The code of keys `1..n` is defined exactly when all those keys are
      present, and is then empty exactly when `n` is 0 and never has `_`. */
  lemma {:induction false} CodeUpToSpec(m: Change, n: nat)
    ensures CodeUpTo(m, n).Some? <==> forall k :: 1 <= k <= n ==> k in m
    ensures CodeUpTo(m, n).Some? ==> ('_' !in CodeUpTo(m, n).value && (CodeUpTo(m, n).value == "" <==> n == 0))
  {
    if n > 0 {
      CodeUpToSpec(m, n - 1);
      if CodeUpTo(m, n - 1).Some? && n in m {
        var code := CodeUpTo(m, n - 1).value;
        var digits := IntToStr(m[n]);
        assert forall k :: 0 <= k < |digits| ==> digits[k] != '_';
        assert (code + digits)[|code|] == digits[0];
      }
    }
  }

  /** `get_full_template`: the template and the three codes joined with
      `_`, the chirality code left out when empty; `None` when a code
      lookup raises. */
  function FullTemplate(template: string, h: Change, c: Change, s: Change): Option<string>
  {
    match (ChangeCode(h), ChangeCode(c), ChangeCode(s))
    case (Some(hCode), Some(cCode), Some(sCode)) =>
      if sCode == "" then Some(Join([template] + [hCode, cCode], "_"))
      else Some(Join([template] + [hCode, cCode, sCode], "_"))
    case _ => None
  }

  /** The label is defined exactly when every change dictionary is keyed
      `1..len`; it has three `_`-separated fields when there is no
      chirality change and four otherwise, the first being the template
      (when the template has no `_`). */
  lemma FullTemplateFields(template: string, h: Change, c: Change, s: Change)
    requires '_' !in template
    ensures FullTemplate(template, h, c, s).Some? <==>
            (forall k :: 1 <= k <= |h| ==> k in h) && (forall k :: 1 <= k <= |c| ==> k in c) &&
            (forall k :: 1 <= k <= |s| ==> k in s)
    ensures FullTemplate(template, h, c, s).Some? ==>
              |Split(FullTemplate(template, h, c, s).value, "_")| == (if |s| == 0 then 3 else 4) &&
              Split(FullTemplate(template, h, c, s).value, "_")[0] == template
  {
    CodeUpToSpec(h, |h|);
    CodeUpToSpec(c, |c|);
    CodeUpToSpec(s, |s|);
    if FullTemplate(template, h, c, s).Some? {
      var hCode, cCode, sCode := ChangeCode(h).value, ChangeCode(c).value, ChangeCode(s).value;
      if |s| == 0 {
        assert [template] + [hCode, cCode] == [template, hCode, cCode];
        SplitJoin([template, hCode, cCode], '_');
      } else {
        assert [template] + [hCode, cCode, sCode] == [template, hCode, cCode, sCode];
        SplitJoin([template, hCode, cCode, sCode], '_');
      }
    }
  }

  /** Every label has a `_`, so no label is the "NaN" sentinel. */
  lemma FullTemplateNotNaN(template: string, h: Change, c: Change, s: Change)
    ensures FullTemplate(template, h, c, s).Some? ==> '_' in FullTemplate(template, h, c, s).value
    ensures FullTemplate(template, h, c, s) != Some("NaN")
  {
    if FullTemplate(template, h, c, s).Some? {
      var hCode, cCode, sCode := ChangeCode(h).value, ChangeCode(c).value, ChangeCode(s).value;
      var rest := if sCode == "" then [hCode, cCode] else [hCode, cCode, sCode];
      assert ([template] + rest)[1..] == rest;
      var full := Join([template] + rest, "_");
      assert full == template + "_" + Join(rest, "_");
      assert full[|template|] == '_';
    }
  }

  // ---------------------------------------------------------------------
  // extract_templates

  /** An entry of `template_labels`: the "NaN" of a failed record, or a
      template label (which is never the string "NaN", see `Prepare`). */
  datatype Label = NaN | Labelled(full: string)

  /** What one record yields before the registry is touched: its label,
      template, edits and the three change dictionaries. */
  datatype Extraction = Extraction(full: string, template: string, edits: seq<EditEntry>, h: Change, c: Change, s: Change)

  /** Lines 65-76 for record `id`: `None` when any step raises (no `>>`,
      the extractor raises, a missing result key or argument, a change
      dictionary not keyed `1..len`). */
  function Prepare(extractor: Extractor, reaction: string, id: int, args: Settings): (r: Option<Extraction>)
    ensures r.Some? ==> '_' in r.value.full && r.value.full != "NaN"
    ensures r.Some? ==> ("use_stereo" in args && (!Truthy(args["use_stereo"]) ==> r.value.s == map[]))
  {
    match GetReactionTemplate(extractor, reaction, id)
    case None => None
    case Some((_, res)) =>
      if !res.hasReactants || res.reactionSmarts.None? || res.edits.None? || res.hChange.None?
         || res.chargeChange.None? || "use_stereo" !in args then None
      else
        var chiral := if Truthy(args["use_stereo"]) then res.chiralChange else Some(map[]);
        if chiral.None? then None
        else
          var template := res.reactionSmarts.value;
          FullTemplateNotNaN(template, res.hChange.value, res.chargeChange.value, chiral.value);
          match FullTemplate(template, res.hChange.value, res.chargeChange.value, chiral.value)
          case None => None
          case Some(full) => Some(Extraction(full, template, res.edits.value, res.hChange.value, res.chargeChange.value, chiral.value))
  }

  /** Without stereochemistry every label has three fields, the first
      being the template (when the template has no `_`). */
  lemma LabelWithoutStereo(extractor: Extractor, reaction: string, id: int, args: Settings)
    requires Prepare(extractor, reaction, id, args).Some?
    requires !Truthy(args["use_stereo"])
    requires '_' !in Prepare(extractor, reaction, id, args).value.template
    ensures |Split(Prepare(extractor, reaction, id, args).value.full, "_")| == 3
    ensures Split(Prepare(extractor, reaction, id, args).value.full, "_")[0] == Prepare(extractor, reaction, id, args).value.template
  {
    var e := Prepare(extractor, reaction, id, args).value;
    FullTemplateFields(e.template, e.h, e.c, e.s);
  }

  /** `{edit_type: edits[edit_type][2] for edit_type in edits}`; `None`
      when an entry has fewer than three elements. */
  function EditSites(edits: seq<EditEntry>): Option<map<string, seq<int>>>
  {
    if edits == [] then Some(map[])
    else
      var last := edits[|edits| - 1];
      match EditSites(edits[..|edits| - 1])
      case None => None
      case Some(sites) => if |last.fields| < 3 then None else Some(sites[last.editType := last.fields[2]])
  }

  /** The edit sites are defined exactly when every entry has three elements. */
  lemma {:induction false} EditSitesDefined(edits: seq<EditEntry>)
    ensures EditSites(edits).Some? <==> forall i :: 0 <= i < |edits| ==> |edits[i].fields| >= 3
  {
    if edits != [] {
      var init := edits[..|edits| - 1];
      EditSitesDefined(init);
      assert forall i :: 0 <= i < |init| ==> init[i] == edits[i];
    }
  }

  /** The edit sites are keyed by exactly the edit types. */
  lemma {:induction false} EditSitesKeys(edits: seq<EditEntry>)
    requires EditSites(edits).Some?
    ensures forall t :: t in EditSites(edits).value <==> exists i :: 0 <= i < |edits| && edits[i].editType == t
  {
    if edits != [] {
      var init := edits[..|edits| - 1];
      var last := edits[|edits| - 1];
      EditSitesKeys(init);
      var sites := EditSites(edits).value;
      assert sites.Keys == EditSites(init).value.Keys + {last.editType};
      forall t | t in sites
        ensures exists i :: 0 <= i < |edits| && edits[i].editType == t
      {
        if t != last.editType {
          var i :| 0 <= i < |init| && init[i].editType == t;
          assert edits[i].editType == t;
        }
      }
      forall t | exists i :: 0 <= i < |edits| && edits[i].editType == t
        ensures t in sites
      {
        var i :| 0 <= i < |edits| && edits[i].editType == t;
        if i < |init| {
          assert init[i].editType == t;
        }
      }
    }
  }

  /** Each edit type holds element 2 of the last entry of that type. */
  lemma {:induction false} EditSitesLast(edits: seq<EditEntry>, i: nat)
    requires EditSites(edits).Some?
    requires i < |edits| && forall j :: i < j < |edits| ==> edits[j].editType != edits[i].editType
    ensures |edits[i].fields| >= 3 && edits[i].editType in EditSites(edits).value
    ensures EditSites(edits).value[edits[i].editType] == edits[i].fields[2]
  {
    var init := edits[..|edits| - 1];
    if i < |init| {
      assert edits[i] == init[i];
      assert forall j :: i < j < |init| ==> init[j] == edits[j];
      EditSitesLast(init, i);
    }
  }

  /** The counter key an edit entry bumps. */
  function CountKey(full: string, e: EditEntry, retro: bool): string
  {
    if retro then full else full + "_" + e.editType
  }

  /** Whether an edit entry bumps `templates_A` (otherwise `templates_B`). */
  predicate AtomSide(e: EditEntry, retro: bool)
  {
    if retro then e.editType == "A" || e.editType == "R" else e.editType != "A"
  }

  function Get(m: map<string, nat>, k: string): nat
  {
    if k in m then m[k] else 0
  }

  function Inc(m: map<string, nat>, k: string): map<string, nat>
  {
    m[k := Get(m, k) + 1]
  }

  /** The two counters after the counting loop of lines 86-102, and
      whether it ran to the end (an entry with no elements raises). */
  datatype Counts = Counts(atom: map<string, nat>, bond: map<string, nat>, ok: bool)

  function CountEdits(atom: map<string, nat>, bond: map<string, nat>, full: string, edits: seq<EditEntry>, retro: bool): Counts
    decreases |edits|
  {
    if edits == [] then Counts(atom, bond, true)
    else
      var e := edits[0];
      if |e.fields| == 0 then Counts(atom, bond, false)
      else if |e.fields[0]| == 0 then CountEdits(atom, bond, full, edits[1..], retro)
      else if AtomSide(e, retro) then CountEdits(Inc(atom, CountKey(full, e, retro)), bond, full, edits[1..], retro)
      else CountEdits(atom, Inc(bond, CountKey(full, e, retro)), full, edits[1..], retro)
  }

  /** How many entries, before the first one with no elements, have
      bonds, fall on the given side and bump key `k`. */
  function Bumps(full: string, edits: seq<EditEntry>, retro: bool, atomSide: bool, k: string): nat
  {
    if edits == [] || |edits[0].fields| == 0 then 0
    else
      (if |edits[0].fields[0]| > 0 && AtomSide(edits[0], retro) == atomSide && CountKey(full, edits[0], retro) == k then 1 else 0)
      + Bumps(full, edits[1..], retro, atomSide, k)
  }

  /** The counting loop completes exactly when every entry has elements. */
  lemma {:induction false} CountEditsOk(atom: map<string, nat>, bond: map<string, nat>, full: string, edits: seq<EditEntry>, retro: bool)
    ensures CountEdits(atom, bond, full, edits, retro).ok <==> forall i :: 0 <= i < |edits| ==> |edits[i].fields| > 0
    decreases |edits|
  {
    if edits != [] && |edits[0].fields| > 0 {
      var e := edits[0];
      var key := CountKey(full, e, retro);
      if |e.fields[0]| == 0 {
        CountEditsOk(atom, bond, full, edits[1..], retro);
      } else if AtomSide(e, retro) {
        CountEditsOk(Inc(atom, key), bond, full, edits[1..], retro);
      } else {
        CountEditsOk(atom, Inc(bond, key), full, edits[1..], retro);
      }
      assert forall i :: 1 <= i < |edits| ==> edits[i] == edits[1..][i - 1];
    }
  }

  /** Counting `key` once more adds one to its count and leaves the others. */
  lemma GetInc(m: map<string, nat>, key: string, k: string)
    ensures Get(Inc(m, key), k) == Get(m, k) + (if key == k then 1 else 0)
  {
  }

  /** The counting loop adds to each key of each counter the number of
      entries that bump it. */
  lemma {:induction false} CountEditsTally(atom: map<string, nat>, bond: map<string, nat>, full: string, edits: seq<EditEntry>, retro: bool, k: string)
    ensures Get(CountEdits(atom, bond, full, edits, retro).atom, k) == Get(atom, k) + Bumps(full, edits, retro, true, k)
    ensures Get(CountEdits(atom, bond, full, edits, retro).bond, k) == Get(bond, k) + Bumps(full, edits, retro, false, k)
    decreases |edits|
  {
    if edits != [] && |edits[0].fields| > 0 {
      var e := edits[0];
      var key := CountKey(full, e, retro);
      if |e.fields[0]| == 0 {
        CountEditsTally(atom, bond, full, edits[1..], retro, k);
      } else if AtomSide(e, retro) {
        CountEditsTally(Inc(atom, key), bond, full, edits[1..], retro, k);
        GetInc(atom, key, k);
      } else {
        CountEditsTally(atom, Inc(bond, key), full, edits[1..], retro, k);
        GetInc(bond, key, k);
      }
    }
  }

  /** What the first occurrence of a label stores in `TemplateEdits`,
      `TemplateHs`, `TemplateCs` and `TemplateSs`. */
  datatype Entry = Entry(editSite: map<string, seq<int>>, h: Change, c: Change, s: Change)

  /** The state of `extract_templates` between records. The four
      dictionaries written together at line 78-81 are one map `entries`;
      `freq` is `TemplateFreq`, `atomTemplates` and `bondTemplates` are
      `templates_A` and `templates_B`, `labels` is `template_labels` and
      `order` is the insertion order of `TemplateHs`. */
  datatype Registry = Registry(
    entries: map<string, Entry>,
    freq: map<string, nat>,
    atomTemplates: map<string, nat>,
    bondTemplates: map<string, nat>,
    labels: seq<Label>,
    order: seq<string>)

  const EmptyRegistry: Registry := Registry(map[], map[], map[], map[], [], [])

  /** The exception handler: append "NaN". */
  function Fail(reg: Registry): Registry
  {
    reg.(labels := reg.labels + [NaN])
  }

  /** Lines 77-84: a label not yet registered gets its edit sites and
      changes; then the label is appended and counted. */
  function Registered(reg: Registry, e: Extraction, sites: Option<map<string, seq<int>>>): Registry
  {
    var stored :=
      if e.full in reg.entries || sites.None? then reg
      else reg.(entries := reg.entries[e.full := Entry(sites.value, e.h, e.c, e.s)], order := reg.order + [e.full]);
    stored.(labels := stored.labels + [Labelled(e.full)], freq := Inc(stored.freq, e.full))
  }

  /** Lines 86-102: count the edits; a missing "retro" argument or an
      entry without elements raises after the label was appended. */
  function Tally(reg: Registry, e: Extraction, args: Settings): Registry
  {
    if "retro" !in args then Fail(reg)
    else
      var n := CountEdits(reg.atomTemplates, reg.bondTemplates, e.full, e.edits, Truthy(args["retro"]));
      var counted := reg.(atomTemplates := n.atom, bondTemplates := n.bond);
      if n.ok then counted else Fail(counted)
  }

  /** One record (lines 64-111): a failed record only appends "NaN"; so
      does a new label whose edit sites cannot be read; otherwise the
      label is registered if new, appended, counted and its edits tallied. */
  function Step(reg: Registry, ex: Option<Extraction>, args: Settings): Registry
  {
    match ex
    case None => Fail(reg)
    case Some(e) =>
      var sites := EditSites(e.edits);
      if e.full !in reg.entries && sites.None? then Fail(reg)
      else Tally(Registered(reg, e, sites), e, args)
  }

  /** The registry after the first `n` records. */
  function Run(extractor: Extractor, rxns: seq<string>, args: Settings, n: nat): Registry
    requires n <= |rxns|
  {
    if n == 0 then EmptyRegistry
    else Step(Run(extractor, rxns, args, n - 1), Prepare(extractor, rxns[n - 1], n - 1, args), args)
  }

  /** The labels other than "NaN", each at its first appearance. */
  function FirstOccurrences(labels: seq<Label>): seq<string>
  {
    if labels == [] then []
    else
      var init := labels[..|labels| - 1];
      var last := labels[|labels| - 1];
      if last.NaN? || last in init then FirstOccurrences(init) else FirstOccurrences(init) + [last.full]
  }

  /** The first occurrences are distinct and are exactly the labels other than "NaN". */
  lemma {:induction false} FirstOccurrencesSpec(labels: seq<Label>)
    ensures forall k :: k in FirstOccurrences(labels) <==> Labelled(k) in labels
    ensures forall i, j :: 0 <= i < j < |FirstOccurrences(labels)| ==> FirstOccurrences(labels)[i] != FirstOccurrences(labels)[j]
  {
    if labels != [] {
      var init := labels[..|labels| - 1];
      FirstOccurrencesSpec(init);
      assert labels == init + [labels[|labels| - 1]];
    }
  }

  /** What holds of the registry between records: the registered labels
      are, in insertion order, the first occurrences of the appended
      labels; they are the keys of `freq`; and the frequency of a label is
      how often it was appended. */
  ghost predicate Valid(reg: Registry)
  {
    && reg.order == FirstOccurrences(reg.labels)
    && (forall k :: k in reg.entries <==> k in reg.order)
    && reg.freq.Keys == reg.entries.Keys
    && (forall k :: k in reg.freq ==> reg.freq[k] == multiset(reg.labels)[Labelled(k)])
  }

  lemma FailValid(reg: Registry)
    requires Valid(reg)
    ensures Valid(Fail(reg))
  {
    var labels := reg.labels + [NaN];
    assert labels[..|labels| - 1] == reg.labels;
    assert multiset(labels) == multiset(reg.labels) + multiset{NaN};
  }

  /** Counting the edits changes only the two counters and possibly
      appends "NaN". */
  lemma TallyEffect(reg: Registry, e: Extraction, args: Settings)
    ensures Tally(reg, e, args).(atomTemplates := reg.atomTemplates, bondTemplates := reg.bondTemplates, labels := reg.labels) == reg
    ensures Tally(reg, e, args).labels == reg.labels || Tally(reg, e, args).labels == reg.labels + [NaN]
  {
    if "retro" in args {
      var n := CountEdits(reg.atomTemplates, reg.bondTemplates, e.full, e.edits, Truthy(args["retro"]));
      var counted := reg.(atomTemplates := n.atom, bondTemplates := n.bond);
      assert Tally(reg, e, args) == if n.ok then counted else Fail(counted);
    }
  }

  lemma TallyValid(reg: Registry, e: Extraction, args: Settings)
    requires Valid(reg)
    ensures Valid(Tally(reg, e, args))
  {
    TallyEffect(reg, e, args);
    var next := Tally(reg, e, args);
    if next.labels != reg.labels {
      FailValid(reg);
      assert next.(atomTemplates := reg.atomTemplates, bondTemplates := reg.bondTemplates) == Fail(reg);
    } else {
      assert next.(atomTemplates := reg.atomTemplates, bondTemplates := reg.bondTemplates) == reg;
    }
  }

  /** A label seen before leaves the first-occurrence order unchanged. */
  lemma FirstOccurrencesSeen(labels: seq<Label>, k: string)
    requires Labelled(k) in labels
    ensures FirstOccurrences(labels + [Labelled(k)]) == FirstOccurrences(labels)
  {
    var next := labels + [Labelled(k)];
    assert next[..|next| - 1] == labels;
  }

  /** Counting a label seen before once more keeps every frequency equal
      to the label's number of appearances. */
  lemma FreqSeen(freq: map<string, nat>, labels: seq<Label>, k: string)
    requires forall j :: j in freq ==> freq[j] == multiset(labels)[Labelled(j)]
    requires k in freq
    ensures Inc(freq, k).Keys == freq.Keys
    ensures forall j :: j in Inc(freq, k) ==> Inc(freq, k)[j] == multiset(labels + [Labelled(k)])[Labelled(j)]
  {
    assert multiset(labels + [Labelled(k)]) == multiset(labels) + multiset{Labelled(k)};
  }

  /** Appending the label of a template already stored, and counting it
      once more, keeps the registry valid. */
  lemma SeenKeyValid(reg: Registry, k: string)
    requires Valid(reg)
    requires k in reg.entries
    ensures Valid(reg.(labels := reg.labels + [Labelled(k)], freq := Inc(reg.freq, k)))
  {
    FirstOccurrencesSpec(reg.labels);
    FirstOccurrencesSeen(reg.labels, k);
    FreqSeen(reg.freq, reg.labels, k);
  }

  /** Appending a registered label keeps the registry valid. */
  lemma RegisteredKnownValid(reg: Registry, e: Extraction, sites: Option<map<string, seq<int>>>)
    requires Valid(reg)
    requires e.full in reg.entries
    ensures Valid(Registered(reg, e, sites))
  {
    SeenKeyValid(reg, e.full);
  }

  /** A label not seen before goes last in the first-occurrence order. */
  lemma FirstOccurrencesNew(labels: seq<Label>, k: string)
    requires Labelled(k) !in labels
    ensures FirstOccurrences(labels + [Labelled(k)]) == FirstOccurrences(labels) + [k]
  {
    var next := labels + [Labelled(k)];
    assert next[..|next| - 1] == labels;
  }

  /** Counting a label not seen before with frequency 1 keeps every
      frequency equal to the label's number of appearances. */
  lemma FreqNew(freq: map<string, nat>, labels: seq<Label>, k: string)
    requires forall j :: j in freq ==> freq[j] == multiset(labels)[Labelled(j)]
    requires Labelled(k) !in labels && k !in freq
    ensures Inc(freq, k).Keys == freq.Keys + {k}
    ensures forall j :: j in Inc(freq, k) ==> Inc(freq, k)[j] == multiset(labels + [Labelled(k)])[Labelled(j)]
  {
    assert multiset(labels + [Labelled(k)]) == multiset(labels) + multiset{Labelled(k)};
    assert multiset(labels)[Labelled(k)] == 0;
  }

  /** A template with no entry has no label yet. */
  lemma UnseenLabel(reg: Registry, k: string)
    requires Valid(reg)
    requires k !in reg.entries
    ensures Labelled(k) !in reg.labels && k !in reg.freq
  {
    FirstOccurrencesSpec(reg.labels);
  }

  /** Storing a new template's entry, appending it to the order and its
      label to the labels, and counting it once keeps the registry valid. */
  lemma NewKeyValid(reg: Registry, k: string, entry: Entry)
    requires Valid(reg)
    requires k !in reg.entries
    ensures Valid(Registry(reg.entries[k := entry], Inc(reg.freq, k), reg.atomTemplates, reg.bondTemplates,
                           reg.labels + [Labelled(k)], reg.order + [k]))
  {
    UnseenLabel(reg, k);
    FirstOccurrencesNew(reg.labels, k);
    FreqNew(reg.freq, reg.labels, k);
    var next := Registry(reg.entries[k := entry], Inc(reg.freq, k), reg.atomTemplates, reg.bondTemplates,
                         reg.labels + [Labelled(k)], reg.order + [k]);
    assert next.entries.Keys == reg.entries.Keys + {k};
    assert forall j :: j in next.entries <==> j in next.order;
    assert next.freq.Keys == next.entries.Keys;
  }

  /** Registering and appending a new label puts it last in the order
      with frequency 1. */
  lemma RegisteredNewValid(reg: Registry, e: Extraction, sites: map<string, seq<int>>)
    requires Valid(reg)
    requires e.full !in reg.entries
    ensures Valid(Registered(reg, e, Some(sites)))
  {
    var entry := Entry(sites, e.h, e.c, e.s);
    NewKeyValid(reg, e.full, entry);
    assert Registered(reg, e, Some(sites)) ==
           Registry(reg.entries[e.full := entry], Inc(reg.freq, e.full), reg.atomTemplates, reg.bondTemplates,
                    reg.labels + [Labelled(e.full)], reg.order + [e.full]);
  }

  /** One record keeps the registry valid. */
  lemma StepValid(reg: Registry, ex: Option<Extraction>, args: Settings)
    requires Valid(reg)
    ensures Valid(Step(reg, ex, args))
  {
    match ex
    case None =>
      FailValid(reg);
    case Some(e) =>
      var sites := EditSites(e.edits);
      if e.full !in reg.entries && sites.None? {
        FailValid(reg);
      } else {
        var mid := Registered(reg, e, sites);
        if e.full in reg.entries {
          RegisteredKnownValid(reg, e, sites);
        } else {
          RegisteredNewValid(reg, e, sites.value);
        }
        TallyValid(mid, e, args);
        assert Step(reg, ex, args) == Tally(mid, e, args);
      }
  }

  /** The registry is valid after any number of records. */
  lemma {:induction false} RunValid(extractor: Extractor, rxns: seq<string>, args: Settings, n: nat)
    requires n <= |rxns|
    ensures Valid(Run(extractor, rxns, args, n))
  {
    if n > 0 {
      RunValid(extractor, rxns, args, n - 1);
      StepValid(Run(extractor, rxns, args, n - 1), Prepare(extractor, rxns[n - 1], n - 1, args), args);
    }
  }

  /** Consequences of validity: a label has a frequency exactly when it
      was appended, and the frequency is how often; the registered labels
      are exactly the appended ones, listed once each. */
  lemma ValidSpec(reg: Registry)
    requires Valid(reg)
    ensures forall k :: k in reg.freq <==> Labelled(k) in reg.labels
    ensures forall k :: k in reg.freq ==> reg.freq[k] == multiset(reg.labels)[Labelled(k)] >= 1
    ensures forall k :: k in reg.entries <==> Labelled(k) in reg.labels
    ensures forall i, j :: 0 <= i < j < |reg.order| ==> reg.order[i] != reg.order[j]
  {
    FirstOccurrencesSpec(reg.labels);
  }

  /** A record whose label reaches `template_labels`: it was extracted, and
      its label is already known or its edit sites can be read. */
  predicate Registers(reg: Registry, ex: Option<Extraction>)
  {
    ex.Some? && (ex.value.full in reg.entries || EditSites(ex.value.edits).Some?)
  }

  /** Counting the edits of `e` raises: "retro" is missing or an entry has
      no elements. */
  predicate CountingFails(e: Extraction, args: Settings)
  {
    "retro" !in args || exists i :: 0 <= i < |e.edits| && |e.edits[i].fields| == 0
  }

  /** A record that raises after its label was appended. */
  predicate FailsLate(reg: Registry, ex: Option<Extraction>, args: Settings)
  {
    Registers(reg, ex) && CountingFails(ex.value, args)
  }

  /** Each record appends exactly one of: "NaN" when it is not registered;
      its label then "NaN" when counting its edits raises; its label alone
      otherwise. */
  lemma StepLabels(reg: Registry, ex: Option<Extraction>, args: Settings)
    ensures !Registers(reg, ex) ==> Step(reg, ex, args) == reg.(labels := reg.labels + [NaN])
    ensures FailsLate(reg, ex, args) ==>
              Step(reg, ex, args).labels == reg.labels + [Labelled(ex.value.full), NaN]
    ensures Registers(reg, ex) && !FailsLate(reg, ex, args) ==>
              Step(reg, ex, args).labels == reg.labels + [Labelled(ex.value.full)]
  {
    if Registers(reg, ex) {
      var e := ex.value;
      var sites := EditSites(e.edits);
      var mid := Registered(reg, e, sites);
      assert mid.labels == reg.labels + [Labelled(e.full)];
      assert mid.labels + [NaN] == reg.labels + [Labelled(e.full), NaN];
      if "retro" in args {
        CountEditsOk(mid.atomTemplates, mid.bondTemplates, e.full, e.edits, Truthy(args["retro"]));
      }
    }
  }

  /** How many of the first `n` records raise after appending their label. */
  function LateFailures(extractor: Extractor, rxns: seq<string>, args: Settings, n: nat): nat
    requires n <= |rxns|
  {
    if n == 0 then 0
    else
      LateFailures(extractor, rxns, args, n - 1) + (if LateAt(extractor, rxns, args, n - 1) then 1 else 0)
  }

  /** Record `i` raises after appending its label. */
  predicate LateAt(extractor: Extractor, rxns: seq<string>, args: Settings, i: nat)
    requires i < |rxns|
  {
    FailsLate(Run(extractor, rxns, args, i), Prepare(extractor, rxns[i], i, args), args)
  }

  /** After `n` records there are `n` labels plus one per record that raised
      after appending its label, so between `n` and `2 n`. */
  lemma {:induction false} RunLabels(extractor: Extractor, rxns: seq<string>, args: Settings, n: nat)
    requires n <= |rxns|
    ensures |Run(extractor, rxns, args, n).labels| == n + LateFailures(extractor, rxns, args, n)
    ensures n <= |Run(extractor, rxns, args, n).labels| <= 2 * n
  {
    if n > 0 {
      RunLabels(extractor, rxns, args, n - 1);
      StepLabels(Run(extractor, rxns, args, n - 1), Prepare(extractor, rxns[n - 1], n - 1, args), args);
    }
  }

  /** There is one label per record exactly when no record raises after
      appending its label. */
  lemma {:induction false} RunLabelsOnePerRecord(extractor: Extractor, rxns: seq<string>, args: Settings, n: nat)
    requires n <= |rxns|
    ensures |Run(extractor, rxns, args, n).labels| == n <==> forall i :: 0 <= i < n ==> !LateAt(extractor, rxns, args, i)
  {
    RunLabels(extractor, rxns, args, n);
    NoLateFailures(extractor, rxns, args, n);
  }

  /** No late failure is counted exactly when no record fails late. */
  lemma {:induction false} NoLateFailures(extractor: Extractor, rxns: seq<string>, args: Settings, n: nat)
    requires n <= |rxns|
    ensures LateFailures(extractor, rxns, args, n) == 0 <==>
              forall i :: 0 <= i < n ==> !LateAt(extractor, rxns, args, i)
  {
    if n > 0 {
      NoLateFailures(extractor, rxns, args, n - 1);
    }
  }

  /** A stored entry is never overwritten by a later record. */
  lemma StepKeepsEntries(reg: Registry, ex: Option<Extraction>, args: Settings, k: string)
    requires k in reg.entries
    ensures k in Step(reg, ex, args).entries && Step(reg, ex, args).entries[k] == reg.entries[k]
  {
    if ex.Some? {
      var e := ex.value;
      var sites := EditSites(e.edits);
      if e.full in reg.entries || sites.Some? {
        TallyEffect(Registered(reg, e, sites), e, args);
      }
    }
  }

  /** Across the run, the edit sites and changes stored for a label after
      `m` records are the ones it still has after `n >= m` records: the
      first occurrence of a label decides them. */
  lemma {:induction false} FirstOccurrenceWins(extractor: Extractor, rxns: seq<string>, args: Settings, m: nat, n: nat, k: string)
    requires m <= n <= |rxns|
    requires k in Run(extractor, rxns, args, m).entries
    ensures k in Run(extractor, rxns, args, n).entries
    ensures Run(extractor, rxns, args, n).entries[k] == Run(extractor, rxns, args, m).entries[k]
  {
    if m < n {
      FirstOccurrenceWins(extractor, rxns, args, m, n - 1, k);
      StepKeepsEntries(Run(extractor, rxns, args, n - 1), Prepare(extractor, rxns[n - 1], n - 1, args), args, k);
    }
  }

  /** A row of `template_infos`. */
  datatype InfoRow = InfoRow(template: string, editSite: map<string, seq<int>>, changeH: Change, changeC: Change, changeS: Change, frequency: nat)

  /** `template_infos`: one row per key of `TemplateHs`, in insertion order. */
  function Infos(reg: Registry): seq<InfoRow>
    requires Valid(reg)
  {
    seq(|reg.order|, i requires 0 <= i < |reg.order| =>
      var k := reg.order[i];
      InfoRow(k, reg.entries[k].editSite, reg.entries[k].h, reg.entries[k].c, reg.entries[k].s, reg.freq[k]))
  }

  /** One pass of the loop body of `extract_templates`. */
  method ExtractRecord(reg: Registry, ex: Option<Extraction>, args: Settings) returns (next: Registry)
    ensures next == Step(reg, ex, args)
  {
    if ex.None? {
      return reg.(labels := reg.labels + [NaN]);
    }
    var e := ex.value;
    var sites := EditSites(e.edits);
    if e.full !in reg.entries && sites.None? {
      return reg.(labels := reg.labels + [NaN]);
    }
    // Lines 77-84: store a new template, append its label, count it.
    next := reg;
    if e.full !in next.entries && sites.Some? {
      next := next.(entries := next.entries[e.full := Entry(sites.value, e.h, e.c, e.s)]);
      next := next.(order := next.order + [e.full]);
    }
    next := next.(labels := next.labels + [Labelled(e.full)]);
    next := next.(freq := next.freq[e.full := Get(next.freq, e.full) + 1]);
    assert next == Registered(reg, e, sites);
    // Lines 86-102: count the edit sites; a raise appends "NaN".
    if "retro" !in args {
      next := next.(labels := next.labels + [NaN]);
      return;
    }
    var atom, bond, ok := CountEditSites(next.atomTemplates, next.bondTemplates, e.full, e.edits, Truthy(args["retro"]));
    next := next.(atomTemplates := atom, bondTemplates := bond);
    if !ok {
      next := next.(labels := next.labels + [NaN]);
    }
  }

  /** `extract_templates`: the template table and one label per record
      (two for a record that fails after its label was appended). */
  method ExtractTemplates(rxns: seq<string>, args: Settings, extractor: Extractor) returns (infos: seq<InfoRow>, labels: seq<Label>)
    ensures Valid(Run(extractor, rxns, args, |rxns|))
    ensures infos == Infos(Run(extractor, rxns, args, |rxns|))
    ensures labels == Run(extractor, rxns, args, |rxns|).labels
  {
    var reg := EmptyRegistry;
    var i := 0;
    while i < |rxns|
      invariant 0 <= i <= |rxns|
      invariant reg == Run(extractor, rxns, args, i)
    {
      reg := ExtractRecord(reg, Prepare(extractor, rxns[i], i, args), args);
      i := i + 1;
    }
    RunValid(extractor, rxns, args, |rxns|);
    infos := TemplateInfos(reg);
    labels := reg.labels;
  }

  /** Line 118: one row per registered label, in insertion order. */
  method TemplateInfos(reg: Registry) returns (infos: seq<InfoRow>)
    requires Valid(reg)
    ensures infos == Infos(reg)
  {
    infos := [];
    var j := 0;
    while j < |reg.order|
      invariant 0 <= j <= |reg.order|
      invariant infos == Infos(reg)[..j]
    {
      var k := reg.order[j];
      var entry := reg.entries[k];
      infos := infos + [InfoRow(k, entry.editSite, entry.h, entry.c, entry.s, reg.freq[k])];
      j := j + 1;
    }
  }

  /** The counting loop of lines 86-102 over one record's edits. */
  method CountEditSites(atom0: map<string, nat>, bond0: map<string, nat>, full: string, edits: seq<EditEntry>, retro: bool)
    returns (atom: map<string, nat>, bond: map<string, nat>, ok: bool)
    ensures Counts(atom, bond, ok) == CountEdits(atom0, bond0, full, edits, retro)
  {
    atom, bond := atom0, bond0;
    var i := 0;
    while i < |edits|
      invariant 0 <= i <= |edits|
      invariant CountEdits(atom, bond, full, edits[i..], retro) == CountEdits(atom0, bond0, full, edits, retro)
    {
      var e := edits[i];
      assert edits[i..][1..] == edits[i + 1..];
      if |e.fields| == 0 {
        return atom, bond, false;
      }
      var bonds := e.fields[0];
      if |bonds| > 0 {
        if AtomSide(e, retro) {
          atom := Inc(atom, CountKey(full, e, retro));
        } else {
          bond := Inc(bond, CountKey(full, e, retro));
        }
      }
      i := i + 1;
    }
    ok := true;
  }
}
