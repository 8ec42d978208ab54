/**
 * Freezing definitions at approval and replaying them (backend/app/domain/parameters/snapshot.py,
 * definition_view.py).
 *
 * A snapshot document is modelled by its content. The digest is an injective function of the
 * content, so `Digest(content)` stands for it. `Replay` theorems relate evaluation under the
 * rehydrated definitions to evaluation under the live ones the snapshot was built from.
 */
module Freezing {
  import opened Results
  import opened Ordering
  import opened Validation
  import opened ValidationLaws
  import opened ValidationOrder
  import opened DefinitionHash
  import Decimals

  // ---------------------------------------------------------------- live rows

  datatype CategoryRow = CategoryRow(code: string, displayName: string, sortOrder: int, isActive: bool)

  datatype OptionRow = OptionRow(code: string, labelText: string, sortOrder: int, isActive: bool)

  datatype ChoiceSetRow = ChoiceSetRow(code: string, displayName: string, version: int, isActive: bool,
      options: seq<OptionRow>)

  datatype ParameterRow = ParameterRow(
    code: string, displayName: string, description: Option<string>, valueType: ValueType, categoryCode: Option<string>,
    choiceSetCode: Option<string>, unit: Option<string>, minValue: Option<string>, maxValue: Option<string>,
    required: bool, pattern: Option<string>, patternHint: Option<string>, sortOrder: int, isActive: bool)

  datatype Rows = Rows(categories: seq<CategoryRow>, parameters: seq<ParameterRow>, choiceSets: seq<ChoiceSetRow>,
      rules: seq<Rule>)

  // ---------------------------------------------------------------- frozen documents

  datatype FrozenCategory = FrozenCategory(code: string, displayName: string, sortOrder: int)

  datatype FrozenParameter = FrozenParameter(
    code: string, displayName: string, description: Option<string>, valueType: ValueType, categoryCode: Option<string>,
    unit: Option<string>, minValue: Option<string>, maxValue: Option<string>, required: bool,
    pattern: Option<string>, patternHint: Option<string>, sortOrder: int, choiceSetCode: Option<string>)

  datatype Content = Content(categories: seq<FrozenCategory>, parameters: seq<FrozenParameter>,
      choiceSets: seq<ChoiceSetRow>, rules: seq<Rule>)

  datatype Digest = Digest(content: Content)

  datatype Document = Document(content: Content, validationBasisHash: Digest)

  datatype SnapshotError = ChoiceSetMissing | ConfigurationRefused | SnapshotInvalid

  const FIXED_PROFILE_CHOICE_SETS: seq<string> := ["device_type", "project_category", "active_direction",
    "gate_direction"]

  // ---------------------------------------------------------------- snapshot

  function ActiveCategories(rows: seq<CategoryRow>): seq<CategoryRow> {
    if |rows| == 0 then [] else (if rows[0].isActive then [rows[0]] else []) + ActiveCategories(rows[1..])
  }

  function ActiveParameters(rows: seq<ParameterRow>): seq<ParameterRow> {
    if |rows| == 0 then [] else (if rows[0].isActive then [rows[0]] else []) + ActiveParameters(rows[1..])
  }

  function CategoryOrder(r: CategoryRow): Key { [Num(r.sortOrder), Txt(r.code)] }

  function ParameterOrder(r: ParameterRow): Key { [Num(r.sortOrder), Txt(r.code)] }

  function OptionOrder(r: OptionRow): Key { [Num(r.sortOrder), Txt(r.code)] }

  /** The last row with the code, as a dictionary built from the rows keeps it. */
  function SetByCode(sets: seq<ChoiceSetRow>, code: string): Option<ChoiceSetRow> {
    if |sets| == 0 then None
    else if sets[|sets| - 1].code == code then Some(sets[|sets| - 1])
    else SetByCode(sets[..|sets| - 1], code)
  }

  /** The choice set code of a choice row as text; an absent one reads "None". */
  function SetCodeText(row: ParameterRow): string {
    if row.choiceSetCode.Some? then row.choiceSetCode.value else "None"
  }

  function NeededSets(rows: seq<ParameterRow>): seq<string> {
    if |rows| == 0 then FIXED_PROFILE_CHOICE_SETS
    else (if rows[0].valueType.Choice? then [SetCodeText(rows[0])] else []) + NeededSets(rows[1..])
  }

  function Choices(set': ChoiceSetRow): (r: seq<ChoiceDefinition>)
    ensures |r| == |set'.options|
  {
    seq(|set'.options|, i requires 0 <= i < |set'.options| => ChoiceDefinition(set'.options[i].code, set'.isActive
      && set'.options[i].isActive))
  }

  function LiveDefinition(row: ParameterRow, sets: seq<ChoiceSetRow>): ParameterDefinition {
    var setCode := if row.valueType.Choice? then Some(SetCodeText(row)) else None;
    var choices := if setCode.Some? && SetByCode(sets,
      setCode.value).Some? then Choices(SetByCode(sets, setCode.value).value) else [];
    ParameterDefinition(row.code, row.displayName, row.valueType, row.required, row.pattern, row.patternHint,
                        row.minValue, row.maxValue, setCode, choices, row.sortOrder)
  }

  function LiveDefinitionsOf(rows: seq<ParameterRow>, sets: seq<ChoiceSetRow>): (r: seq<ParameterDefinition>)
    ensures |r| == |rows| && forall i :: 0 <= i < |rows| ==> r[i] == LiveDefinition(rows[i], sets)
  {
    if |rows| == 0 then [] else [LiveDefinition(rows[0], sets)] + LiveDefinitionsOf(rows[1..], sets)
  }

  function SortedParameters(rows: Rows): seq<ParameterRow> { SortBy(ActiveParameters(rows.parameters), ParameterOrder) }

  /** The live parameter definitions a snapshot is built from. */
  function LiveDefinitions(rows: Rows): seq<ParameterDefinition> {
    LiveDefinitionsOf(SortedParameters(rows), rows.choiceSets)
  }

  function Versions(sets: seq<ChoiceSetRow>): map<string, int> {
    if |sets| == 0 then map[] else Versions(sets[..|sets| - 1])[sets[|sets| - 1].code := sets[|sets| - 1].version]
  }

  function FreezeCategories(rows: seq<CategoryRow>): (r: seq<FrozenCategory>)
    ensures |r| == |rows| && forall i :: 0 <= i < |rows| ==>
      r[i] == FrozenCategory(rows[i].code, rows[i].displayName, rows[i].sortOrder)
  {
    if |rows| == 0 then []
      else [FrozenCategory(rows[0].code, rows[0].displayName, rows[0].sortOrder)] + FreezeCategories(rows[1..])
  }

  function FreezeParameter(row: ParameterRow): FrozenParameter {
    FrozenParameter(row.code, row.displayName, row.description, row.valueType, row.categoryCode, row.unit,
      row.minValue, row.maxValue,
                    row.required, row.pattern, row.patternHint, row.sortOrder,
                    if row.valueType.Choice? then Some(SetCodeText(row)) else None)
  }

  function FreezeParameters(rows: seq<ParameterRow>): (r: seq<FrozenParameter>)
    ensures |r| == |rows| && forall i :: 0 <= i < |rows| ==> r[i] == FreezeParameter(rows[i])
  {
    if |rows| == 0 then [] else [FreezeParameter(rows[0])] + FreezeParameters(rows[1..])
  }

  function FreezeSet(row: ChoiceSetRow): ChoiceSetRow { row.(options := SortBy(row.options, OptionOrder)) }

  function FreezeSets(codes: seq<string>, sets: seq<ChoiceSetRow>): seq<ChoiceSetRow> {
    if |codes| == 0 then []
    else (match SetByCode(sets, codes[0]) case None => [] case Some(row) => [FreezeSet(row)]) + FreezeSets(codes[1..],
      sets)
  }

  /** The rule as frozen: scope entries sorted, literal in canonical form. */
  function FreezeRule(rule: Rule, ps: seq<ParameterDefinition>): Rule {
    var spec := match CanonicalSpec(rule.spec, ps) case Ok(canonical) => canonical case Err(_) => rule.spec;
    rule.(scope := CanonicalScope(rule.scope), spec := spec)
  }

  function FreezeRules(rules: seq<Rule>, ps: seq<ParameterDefinition>): (r: seq<Rule>)
    ensures |r| == |rules| && forall i :: 0 <= i < |rules| ==> r[i] == FreezeRule(rules[i], ps)
  {
    if |rules| == 0 then [] else [FreezeRule(rules[0], ps)] + FreezeRules(rules[1..], ps)
  }

  function Needed(rows: Rows): seq<string> { SortBy(Distinct(NeededSets(SortedParameters(rows))), TextKey) }

  function Freeze(rows: Rows): Content {
    Content(FreezeCategories(SortBy(ActiveCategories(rows.categories), CategoryOrder)),
            FreezeParameters(SortedParameters(rows)),
            FreezeSets(Needed(rows), rows.choiceSets),
            SortBy(FreezeRules(rows.rules, LiveDefinitions(rows)), RuleCodeKey))
  }

  predicate SetsPresent(rows: Rows) {
    forall i :: 0 <= i < |NeededSets(SortedParameters(rows))| ==>
      SetByCode(rows.choiceSets, NeededSets(SortedParameters(rows))[i]).Some?
  }

  /** snapshot: refuse missing choice sets and invalid configurations, then capture. */
  function Snapshot(rows: Rows): Result<Document, SnapshotError> {
    if !SetsPresent(rows) then Err(ChoiceSetMissing)
    else if CanonicalPayload(LiveDefinitions(rows), Versions(rows.choiceSets),
      rows.rules).Err? then Err(ConfigurationRefused)
    else Ok(Document(Freeze(rows), Digest(Freeze(rows))))
  }

  // ---------------------------------------------------------------- rehydration

  predicate DistinctTexts(xs: seq<string>) { forall i, j :: 0 <= i < j < |xs| ==> xs[i] != xs[j] }

  function CategoryCodes(xs: seq<FrozenCategory>): (r: seq<string>)
    ensures |r| == |xs| && forall i :: 0 <= i < |xs| ==> r[i] == xs[i].code
  { seq(|xs|, i requires 0 <= i < |xs| => xs[i].code) }

  function ParameterCodes(xs: seq<FrozenParameter>): (r: seq<string>)
    ensures |r| == |xs| && forall i :: 0 <= i < |xs| ==> r[i] == xs[i].code
  { seq(|xs|, i requires 0 <= i < |xs| => xs[i].code) }

  function SetCodes(xs: seq<ChoiceSetRow>): (r: seq<string>)
    ensures |r| == |xs| && forall i :: 0 <= i < |xs| ==> r[i] == xs[i].code
  { seq(|xs|, i requires 0 <= i < |xs| => xs[i].code) }

  function OptionCodes(xs: seq<OptionRow>): (r: seq<string>)
    ensures |r| == |xs| && forall i :: 0 <= i < |xs| ==> r[i] == xs[i].code
  { seq(|xs|, i requires 0 <= i < |xs| => xs[i].code) }

  function CodesOf(xs: seq<Rule>): (r: seq<string>)
    ensures |r| == |xs| && forall i :: 0 <= i < |xs| ==> r[i] == xs[i].code
  { seq(|xs|, i requires 0 <= i < |xs| => xs[i].code) }

  predicate ValidCategory(c: FrozenCategory) { c.code != "" && c.displayName != "" && c.sortOrder >= 0 }

  predicate ValidOption(o: OptionRow) { o.code != "" && o.labelText != "" && o.sortOrder >= 0 }

  predicate ValidSet(s: ChoiceSetRow) {
    && s.code != "" && s.displayName != "" && s.version >= 1
    && DistinctTexts(OptionCodes(s.options))
    && forall i :: 0 <= i < |s.options| ==> ValidOption(s.options[i])
  }

  predicate ValidParameter(p: FrozenParameter, setCodes: seq<string>) {
    && p.code != "" && p.displayName != "" && p.sortOrder >= 0
    && (p.valueType.Choice? ==>
      p.choiceSetCode.Some? && p.choiceSetCode.value != "" && p.choiceSetCode.value in setCodes)
  }

  predicate ValidRule(r: Rule) { r.code != "" && r.name != "" && r.version >= 1 && r.spec.schemaVersion >= 1 }

  /** The structural checks of the frozen view. */
  predicate NestedValid(c: Content) {
    && DistinctTexts(CategoryCodes(c.categories)) && DistinctTexts(ParameterCodes(c.parameters))
    && DistinctTexts(SetCodes(c.choiceSets)) && DistinctTexts(CodesOf(c.rules))
    && (forall i :: 0 <= i < |c.categories| ==> ValidCategory(c.categories[i]))
    && (forall i :: 0 <= i < |c.choiceSets| ==> ValidSet(c.choiceSets[i]))
    && (forall i :: 0 <= i < |c.parameters| ==> ValidParameter(c.parameters[i], SetCodes(c.choiceSets)))
    && (forall i :: 0 <= i < |c.rules| ==> ValidRule(c.rules[i]))
  }

  /** from_snapshot: accept a document whose structure is valid and whose digest matches its content. */
  predicate Accepted(d: Document) { NestedValid(d.content) && d.validationBasisHash == Digest(d.content) }

  /** The set code of a choice parameter as text; an absent one reads "None". */
  function FrozenSetCode(p: FrozenParameter): Option<string> {
    if !p.valueType.Choice? then None else Some(if p.choiceSetCode.Some? then p.choiceSetCode.value else "None")
  }

  function FrozenDefinition(p: FrozenParameter, sets: seq<ChoiceSetRow>): ParameterDefinition {
    var setCode := FrozenSetCode(p);
    var choices := if setCode.Some? && SetByCode(sets,
      setCode.value).Some? then Choices(SetByCode(sets, setCode.value).value) else [];
    ParameterDefinition(p.code, p.displayName, p.valueType, p.required, p.pattern, p.patternHint,
                        p.minValue, p.maxValue, setCode, choices, p.sortOrder)
  }

  predicate SetFound(p: FrozenParameter, sets: seq<ChoiceSetRow>) {
    FrozenSetCode(p).Some? ==> SetByCode(sets, FrozenSetCode(p).value).Some?
  }

  /** parameter_definitions: fails exactly when a choice parameter names a set that is not in the document. */
  method ParameterDefinitions(d: Document) returns (r: Result<seq<ParameterDefinition>, SnapshotError>)
    ensures r.Ok? <==> forall i :: 0 <= i < |d.content.parameters| ==>
      SetFound(d.content.parameters[i], d.content.choiceSets)
    ensures r == if r.Ok? then Ok(FrozenDefinitions(d.content)) else Err(SnapshotInvalid)
  {
    hide SetByCode;
    var definitions := [];
    for i := 0 to |d.content.parameters|
      invariant |definitions| == i
      invariant forall k :: 0 <= k < i ==> SetFound(d.content.parameters[k], d.content.choiceSets)
      invariant forall k :: 0 <= k < i ==>
        definitions[k] == FrozenDefinition(d.content.parameters[k], d.content.choiceSets)
    {
      var row := d.content.parameters[i];
      var setCode := FrozenSetCode(row);
      var choices := [];
      if setCode.Some? {
        var found := SetByCode(d.content.choiceSets, setCode.value);
        if found.None? { return Err(SnapshotInvalid); }
        choices := Choices(found.value);
      }
      definitions := definitions + [ParameterDefinition(row.code, row.displayName, row.valueType, row.required,
        row.pattern, row.patternHint,
                                                        row.minValue, row.maxValue, setCode, choices, row.sortOrder)];
    }
    assert definitions == FrozenDefinitions(d.content);
    return Ok(definitions);
  }

  function FrozenDefinitions(c: Content): (r: seq<ParameterDefinition>)
    ensures |r| == |c.parameters| && forall i :: 0 <= i < |r| ==>
      r[i] == FrozenDefinition(c.parameters[i], c.choiceSets)
  {
    seq(|c.parameters|, i requires 0 <= i < |c.parameters| => FrozenDefinition(c.parameters[i], c.choiceSets))
  }

  /** validation_rule_definitions */
  function FrozenRules(c: Content): seq<Rule> { c.rules }

  // ---------------------------------------------------------------- frozen choice sets

  lemma {:induction false} NeededProps(rows: Rows)
    ensures DistinctKeys(Needed(rows), TextKey)
    ensures forall x :: x in Needed(rows) <==> x in NeededSets(SortedParameters(rows))
  {
    hide Distinct, SortBy, NeededSets;
    var d := Distinct(NeededSets(SortedParameters(rows)));
    DistinctProps(NeededSets(SortedParameters(rows)));
    SortProps(d, TextKey);
    DistinctKeysOfPermutation(d, SortBy(d, TextKey), TextKey);
  }

  lemma {:induction false} NeededSetsMember(rows: seq<ParameterRow>, i: nat)
    requires i < |rows| && rows[i].valueType.Choice?
    ensures SetCodeText(rows[i]) in NeededSets(rows)
  {
    if i > 0 { NeededSetsMember(rows[1..], i - 1); }
  }

  lemma {:induction false} SetByCodeCode(sets: seq<ChoiceSetRow>, code: string)
    ensures SetByCode(sets, code).Some? ==>
      SetByCode(sets, code).value.code == code && SetByCode(sets, code).value in sets
  {
    if |sets| > 0 && sets[|sets| - 1].code != code { SetByCodeCode(sets[..|sets| - 1], code); }
  }

  /** With every code present, the frozen sets follow the codes one by one. */
  lemma {:induction false} FreezeSetsAt(codes: seq<string>, sets: seq<ChoiceSetRow>)
    requires forall i :: 0 <= i < |codes| ==> SetByCode(sets, codes[i]).Some?
    ensures var r := FreezeSets(codes, sets);
      |r| == |codes| && forall i :: 0 <= i < |codes| ==>
        r[i] == FreezeSet(SetByCode(sets, codes[i]).value) && r[i].code == codes[i]
  {
    hide SetByCode;
    if |codes| > 0 {
      SetByCodeCode(sets, codes[0]);
      FreezeSetsAt(codes[1..], sets);
    }
  }

  lemma {:induction false} SetByCodeAt(sets: seq<ChoiceSetRow>, i: nat)
    requires i < |sets| && forall a, b :: 0 <= a < b < |sets| ==> sets[a].code != sets[b].code
    ensures SetByCode(sets, sets[i].code) == Some(sets[i])
  {
    var n := |sets| - 1;
    if i < n { SetByCodeAt(sets[..n], i); }
  }

  /** Looking a needed code up among the frozen sets finds its frozen row. */
  lemma {:induction false} FrozenSetFound(rows: Rows, code: string)
    requires SetsPresent(rows) && code in NeededSets(SortedParameters(rows))
    ensures SetByCode(rows.choiceSets, code).Some?
    ensures SetByCode(Freeze(rows).choiceSets, code) == Some(FreezeSet(SetByCode(rows.choiceSets, code).value))
  {
    hide SetByCode, SortBy, NeededSets, Needed, SortedParameters, FreezeSets, FreezeSet, LiveDefinitions;
    var needed := Needed(rows);
    NeededProps(rows);
    NeededPresent(rows);
    FreezeSetsAt(needed, rows.choiceSets);
    var frozen := FreezeSets(needed, rows.choiceSets);
    var i := IndexOf(needed, code);
    forall a, b | 0 <= a < b < |frozen| ensures frozen[a].code != frozen[b].code {
      assert TextKey(needed[a]) != TextKey(needed[b]);
    }
    SetByCodeAt(frozen, i);
  }

  lemma {:induction false} NeededPresent(rows: Rows)
    requires SetsPresent(rows)
    ensures forall i :: 0 <= i < |Needed(rows)| ==> SetByCode(rows.choiceSets, Needed(rows)[i]).Some?
  {
    hide Needed, NeededSets, SetByCode;
    NeededProps(rows);
    var all := NeededSets(SortedParameters(rows));
    forall i | 0 <= i < |Needed(rows)| ensures SetByCode(rows.choiceSets, Needed(rows)[i]).Some? {
      assert Needed(rows)[i] in Needed(rows);
      var j := IndexOf(all, Needed(rows)[i]);
    }
  }

  // ---------------------------------------------------------------- replay of parameters

  function ChoiceOf(active: bool, o: OptionRow): ChoiceDefinition { ChoiceDefinition(o.code, active && o.isActive) }

  function ChoicesOf(active: bool, options: seq<OptionRow>): (r: seq<ChoiceDefinition>)
    ensures |r| == |options| && forall i :: 0 <= i < |r| ==> r[i] == ChoiceOf(active, options[i])
  {
    if |options| == 0 then [] else [ChoiceOf(active, options[0])] + ChoicesOf(active, options[1..])
  }

  lemma {:induction false} ChoicesInsert(active: bool, o: OptionRow, options: seq<OptionRow>)
    ensures multiset(ChoicesOf(active, Insert(o, options, OptionOrder))) ==
      multiset{ChoiceOf(active, o)} + multiset(ChoicesOf(active, options))
  {
    hide KeyLess;
    if |options| > 0 && KeyLess(OptionOrder(options[0]), OptionOrder(o)) {
      var t := Insert(o, options[1..], OptionOrder);
      ChoicesInsert(active, o, options[1..]);
      assert ([options[0]] + t)[1..] == t;
    } else {
      assert ([o] + options)[1..] == options;
    }
  }

  lemma {:induction false} ChoicesSorted(active: bool, options: seq<OptionRow>)
    ensures multiset(ChoicesOf(active, SortBy(options, OptionOrder))) == multiset(ChoicesOf(active, options))
  {
    hide Insert;
    if |options| > 0 {
      ChoicesSorted(active, options[1..]);
      ChoicesInsert(active, options[0], SortBy(options[1..], OptionOrder));
    }
  }

  lemma {:induction false} FrozenChoices(row: ChoiceSetRow)
    ensures multiset(Choices(FreezeSet(row))) == multiset(Choices(row))
  {
    hide SortBy;
    ChoicesSorted(row.isActive, row.options);
    assert Choices(row) == ChoicesOf(row.isActive, row.options);
    assert Choices(FreezeSet(row)) == ChoicesOf(row.isActive, SortBy(row.options, OptionOrder));
  }

  /** Each rehydrated parameter is the live one with its choices in frozen order. */
  lemma {:induction false} ReplayedParameter(rows: Rows, i: nat)
    requires SetsPresent(rows) && i < |SortedParameters(rows)|
    ensures SameChoices(LiveDefinitions(rows)[i], FrozenDefinitions(Freeze(rows))[i])
  {
    hide SortedParameters, SetByCode, NeededSets, Choices, FreezeSets, FreezeSet, FreezeRules, Needed, SortBy;
    var row := SortedParameters(rows)[i];
    if row.valueType.Choice? {
      NeededSetsMember(SortedParameters(rows), i);
      FrozenSetFound(rows, SetCodeText(row));
      FrozenChoices(SetByCode(rows.choiceSets, SetCodeText(row)).value);
    }
  }

  lemma {:induction false} ReplayedParameters(rows: Rows)
    requires SetsPresent(rows)
    ensures PrepareAll(FrozenDefinitions(Freeze(rows))) == PrepareAll(LiveDefinitions(rows))
  {
    hide PrepareAll, Prepare, SortedParameters, FrozenDefinition, LiveDefinition, FreezeRules, FreezeSets, SameChoices;
    var live, frozen := LiveDefinitions(rows), FrozenDefinitions(Freeze(rows));
    forall i | 0 <= i < |live| ensures Prepare(live[i]) == Prepare(frozen[i]) && live[i].code == frozen[i].code {
      ReplayedParameter(rows, i);
      PrepareIgnoresChoiceOrder(live[i], frozen[i]);
      SameChoicesCode(live[i], frozen[i]);
    }
    PrepareAllPointwise(live, frozen);
  }

  lemma {:induction false} SameChoicesCode(p: ParameterDefinition, q: ParameterDefinition)
    requires SameChoices(p, q)
    ensures p.code == q.code
  {
  }

  // ---------------------------------------------------------------- replay of rules

  /**
   * The literal of a rule survives freezing: its canonical form is accepted again. Only number
   * literals that fill the digit limit behind a leading dot do not.
   */
  predicate LiteralFits(rule: Rule, ps: seq<ParameterDefinition>) {
    rule.spec.RequiredIf? && FindParameter(ps, rule.spec.whenCode).Some?
      && FindParameter(ps, rule.spec.whenCode).value.valueType.Number? ==>
      !Decimals.FillsTheLimitBehindADot(Decimals.Split(Decimals.Strip(rule.spec.equals)))
  }

  lemma {:induction false} CanonicalTypedAgain(t: ValueType, literal: string)
    requires CanonicalTyped(t, Some(literal)).Ok? && CanonicalTyped(t, Some(literal)).value.Some?
    ensures var x := CanonicalTyped(t, Some(literal));
      CanonicalTyped(t, x.value) == x <==>
        !(t.Number? && Decimals.FillsTheLimitBehindADot(Decimals.Split(Decimals.Strip(literal))))
    ensures CanonicalTyped(t, CanonicalTyped(t, Some(literal)).value) == CanonicalTyped(t, Some(literal))
      || CanonicalTyped(t, CanonicalTyped(t, Some(literal)).value).Err?
  {
    hide Decimals.Normalize, Decimals.Split, Decimals.Strip, Decimals.FillsTheLimitBehindADot;
    if t.Number? {
      var x := Decimals.Normalize(literal);
      Decimals.NormalizeIdempotent(literal);
      Decimals.NormalizePreservesValue(literal);
      Decimals.RenormalizeCanonical(x.value);
      NonEmptyCanonical(x.value);
    }
  }

  lemma {:induction false} NonEmptyCanonical(text: string)
    requires Decimals.Canonical(text)
    ensures text != ""
  {
    Decimals.PartsDigitCount(text);
  }

  lemma {:induction false} FrozenScopeSame(s: Scope)
    ensures SameScope(s, CanonicalScope(s))
  {
    hide SortBy, SameFilter;
    SortProps(s.lineIds, TextKey); SameFilterOfPermutation(s.lineIds, SortBy(s.lineIds, TextKey));
    SortProps(s.processIds, TextKey); SameFilterOfPermutation(s.processIds, SortBy(s.processIds, TextKey));
    SortProps(s.layerIds, TextKey); SameFilterOfPermutation(s.layerIds, SortBy(s.layerIds, TextKey));
    SortProps(s.stepSeqs, TextKey); SameFilterOfPermutation(s.stepSeqs, SortBy(s.stepSeqs, TextKey));
    SortProps(s.eqpTypes, TextKey); SameFilterOfPermutation(s.eqpTypes, SortBy(s.eqpTypes, TextKey));
    SortProps(s.areaNames, TextKey); SameFilterOfPermutation(s.areaNames, SortBy(s.areaNames, TextKey));
  }

  /** A frozen rule resolves exactly when its literal fits, and is then the same rule. */
  lemma {:induction false} FrozenRuleResolves(rule: Rule, ps: seq<ParameterDefinition>)
    requires PrepareAll(ps).Ok? && CanonicalSpec(rule.spec, ps).Ok?
    ensures var p := PrepareAll(ps).value;
      && SameScope(rule.scope, FreezeRule(rule, ps).scope)
      && (LiteralFits(rule, ps) ==> SameRule(rule, FreezeRule(rule, ps), p))
      && (!LiteralFits(rule, ps) ==> ResolveRule(FreezeRule(rule, ps), p).Err?)
  {
    hide PrepareAll, Prepare, CanonicalTyped, CanonicalScope, SameScope, Find, FindParameter,
         Decimals.FillsTheLimitBehindADot, Decimals.Split, Decimals.Strip;
    FrozenScopeSame(rule.scope);
    if rule.spec.RequiredIf? {
      var when := FindParameter(ps, rule.spec.whenCode).value;
      PreparedOrigin(ps, rule.spec.whenCode);
      PreparedOrigin(ps, rule.spec.requiredCode);
      PrepareType(when);
      CanonicalTypedAgain(when.valueType, rule.spec.equals);
    }
  }

  /** Definitions the hash accepts resolve against the prepared parameters. */
  lemma {:induction false} AcceptedRuleResolves(rule: Rule, ps: seq<ParameterDefinition>)
    requires PrepareAll(ps).Ok? && CanonicalSpec(rule.spec, ps).Ok?
    ensures ResolveRule(rule, PrepareAll(ps).value).Ok?
  {
    hide PrepareAll, Prepare, CanonicalTyped, Find, FindParameter, HasChoice;
    match rule.spec
    case RequiredIf(whenCode, literal, requiredCode, _) =>
      PreparedOrigin(ps, whenCode);
      PreparedOrigin(ps, requiredCode);
      var when := FindParameter(ps, whenCode).value;
      PrepareType(when);
      if when.valueType.Choice? { PreparedChoices(when, CanonicalTyped(when.valueType, Some(literal)).value.value); }
    case PriorPor(sourceCode, candidateCode, _) =>
      PreparedOrigin(ps, sourceCode);
      PreparedOrigin(ps, candidateCode);
      PrepareType(FindParameter(ps, sourceCode).value);
      PrepareType(FindParameter(ps, candidateCode).value);
      PrepareSet(FindParameter(ps, sourceCode).value);
      PrepareSet(FindParameter(ps, candidateCode).value);
  }

  lemma {:induction false} PreparedChoices(p: ParameterDefinition, code: string)
    requires Prepare(p).Ok? && p.valueType.Choice?
    ensures code in Prepare(p).value.choices <==> HasChoice(p, code)
  {
    hide ChoiceMap;
    ChoiceMapDomain(p.choices);
    ChoiceCodesMember(p.choices, code);
  }

  lemma {:induction false} PrepareSet(p: ParameterDefinition)
    ensures Prepare(p).Ok? ==> Prepare(p).value.choiceSetCode == p.choiceSetCode
  {
    hide ChoiceMap, CanonicalBound;
  }

  lemma {:induction false} EachRuleAccepted(rules: seq<Rule>, ps: seq<ParameterDefinition>, i: nat)
    requires EachRule(rules, ps).Ok? && i < |rules|
    ensures CanonicalSpec(rules[i].spec, ps).Ok?
  {
    hide CanonicalSpec, CanonicalScope;
    if i > 0 { EachRuleAccepted(rules[1..], ps, i - 1); }
  }

  lemma {:induction false} PayloadAcceptsRules(ps: seq<ParameterDefinition>, versions: map<string, int>,
      rules: seq<Rule>, i: nat)
    requires CanonicalPayload(ps, versions, rules).Ok? && i < |rules|
    ensures CanonicalSpec(rules[i].spec, ps).Ok? && DistinctKeys(rules, RuleCodeKey)
  {
    hide SortBy, EachRule, CanonicalSpec, EachParameter;
    var s := SortBy(rules, RuleOrder);
    SortProps(rules, RuleOrder);
    MemberOfPermutation(s, rules, i);
    var j := IndexOf(s, rules[i]);
    EachRuleAccepted(s, ps, j);
  }

  lemma {:induction false} RelationFails(context: ProjectContext, ps: seq<Prepared>, ls: seq<LayerInput>,
      rules: seq<Rule>, i: nat)
    requires i < |rules| && AppliesToProject(rules[i].scope, context) && ResolveRule(rules[i], ps).Err?
    ensures RelationIssues(context, ps, ls, rules).Err?
  {
    hide ResolveRule, RuleIssues, AppliesToProject;
    var n := |rules| - 1;
    if i < n { RelationFails(context, ps, ls, rules[..n], i); }
  }

  lemma {:induction false} RelationSucceeds(context: ProjectContext, ps: seq<Prepared>, ls: seq<LayerInput>,
      rules: seq<Rule>)
    requires forall i :: 0 <= i < |rules| ==> ResolveRule(rules[i], ps).Ok?
    ensures RelationIssues(context, ps, ls, rules).Ok?
  {
    hide ResolveRule, RuleIssues, AppliesToProject;
    var n := |rules| - 1;
    if n >= 0 { RelationSucceeds(context, ps, ls, rules[..n]); }
  }

  /** Evaluation fails when an applicable rule does not resolve. */
  lemma {:induction false} EvaluateFails(context: ProjectContext, ps: seq<ParameterDefinition>,
      layers: seq<LayerInput>, rules: seq<Rule>, i: nat)
    requires PrepareAll(ps).Ok? && i < |rules| && AppliesToProject(rules[i].scope, context)
    requires ResolveRule(rules[i], PrepareAll(ps).value).Err?
    ensures Evaluate(context, ps, layers, rules).Err?
  {
    hide PrepareAll, SortBy, OrderLayers, ResolveRule, AppliesToProject, StandaloneIssues, RelationIssues;
    var s := SortBy(rules, RuleOrder);
    SortProps(rules, RuleOrder);
    MemberOfPermutation(s, rules, i);
    RelationFails(context, PrepareAll(ps).value, OrderLayers(layers), s, IndexOf(s, rules[i]));
  }

  /** Definitions the hash accepts fail to evaluate only for reasons that are not in the rules. */
  lemma {:induction false} EvaluateSucceeds(context: ProjectContext, ps: seq<ParameterDefinition>,
      versions: map<string, int>, layers: seq<LayerInput>, rules: seq<Rule>)
    requires CanonicalPayload(ps, versions, rules).Ok?
    ensures Evaluate(context, ps, layers, rules).Ok? <==> PrepareAll(ps).Ok? && DistinctKeys(layers, LayerKeyOf)
  {
    hide PrepareAll, SortBy, OrderLayers, ResolveRule, StandaloneIssues, RelationIssues, CanonicalSpec, DistinctKeys;
    if PrepareAll(ps).Ok? {
      var s := SortBy(rules, RuleOrder);
      SortProps(rules, RuleOrder);
      forall i | 0 <= i < |s| ensures ResolveRule(s[i], PrepareAll(ps).value).Ok? {
        MemberOfPermutation(rules, s, i);
        PayloadAcceptsRules(ps, versions, rules, IndexOf(rules, s[i]));
        AcceptedRuleResolves(s[i], ps);
      }
      RelationSucceeds(context, PrepareAll(ps).value, OrderLayers(layers), s);
    }
  }

  // ---------------------------------------------------------------- replay

  /** Every number literal of a rule that applies to the project survives freezing. */
  ghost predicate LiteralsFit(context: ProjectContext, rows: Rows) {
    forall i :: 0 <= i < |rows.rules| && AppliesToProject(rows.rules[i].scope, context) ==>
      LiteralFits(rows.rules[i], LiveDefinitions(rows))
  }

  lemma {:induction false} ReplayedRulesFit(context: ProjectContext, rows: Rows, layers: seq<LayerInput>)
    requires Snapshot(rows).Ok? && LiteralsFit(context, rows)
    ensures Evaluate(context, FrozenDefinitions(Freeze(rows)), layers, FrozenRules(Freeze(rows))) ==
      Evaluate(context, LiveDefinitions(rows), layers, rows.rules)
  {
    hide PrepareAll, Evaluate, LiveDefinitions, SortedParameters, CanonicalPayload, FreezeRule, SameRule, SameScope,
         LiteralFits, SortBy, AppliesToProject, FreezeSets, Versions, FrozenDefinition, CanonicalSpec;
    var live := LiveDefinitions(rows);
    var frozen := FreezeRules(rows.rules, live);
    ReplayedParameters(rows);
    if PrepareAll(live).Ok? {
      forall i | 0 <= i < |frozen| ensures SameRuleFor(context, rows.rules[i], frozen[i], PrepareAll(live).value) {
        PayloadAcceptsRules(live, Versions(rows.choiceSets), rows.rules, i);
        FrozenRuleResolves(rows.rules[i], live);
        FrozenHeader(rows.rules[i], live);
      }
    }
    EvaluateCongruence(context, live, FrozenDefinitions(Freeze(rows)), layers, rows.rules, frozen);
    SortProps(frozen, RuleCodeKey);
    EvaluateShuffledRules(context, FrozenDefinitions(Freeze(rows)), layers, frozen, SortBy(frozen, RuleCodeKey));
  }

  lemma {:induction false} FrozenHeader(rule: Rule, ps: seq<ParameterDefinition>)
    ensures FreezeRule(rule, ps).code == rule.code && FreezeRule(rule, ps).version == rule.version
    ensures FreezeRule(rule, ps).name == rule.name
    ensures FreezeRule(rule, ps).scope == CanonicalScope(rule.scope)
  {
  }

  lemma {:induction false} ReplayedRuleTooLong(context: ProjectContext, rows: Rows, layers: seq<LayerInput>, i: nat)
    requires Snapshot(rows).Ok? && PrepareAll(LiveDefinitions(rows)).Ok?
    requires i < |rows.rules| && AppliesToProject(rows.rules[i].scope, context)
    requires !LiteralFits(rows.rules[i], LiveDefinitions(rows))
    ensures Evaluate(context, FrozenDefinitions(Freeze(rows)), layers, FrozenRules(Freeze(rows))).Err?
  {
    hide PrepareAll, Evaluate, LiveDefinitions, SortedParameters, CanonicalPayload, FreezeRule, SameRule, SameScope,
         LiteralFits, SortBy, AppliesToProject, FreezeSets, Versions, ResolveRule, CanonicalSpec;
    var live := LiveDefinitions(rows);
    var frozen := FreezeRules(rows.rules, live);
    ReplayedParameters(rows);
    PayloadAcceptsRules(live, Versions(rows.choiceSets), rows.rules, i);
    FrozenRuleResolves(rows.rules[i], live);
    SameScopeApplies(context, rows.rules[i].scope, frozen[i].scope);
    var s := SortBy(frozen, RuleCodeKey);
    SortProps(frozen, RuleCodeKey);
    MemberOfPermutation(s, frozen, i);
    EvaluateFails(context, FrozenDefinitions(Freeze(rows)), layers, s, IndexOf(s, frozen[i]));
  }

  /**
   * Freezing preserves meaning. On every project and sheet the rehydrated definitions give the
   * same issues, or the same failure, as the live definitions the snapshot was built from,
   * exactly when the live evaluation fails anyway or every applicable literal fits the digit limit.
   */
  lemma {:induction false} ReplayPreservesEvaluation(context: ProjectContext, rows: Rows, layers: seq<LayerInput>)
    requires Snapshot(rows).Ok?
    ensures var c := Snapshot(rows).value.content;
      Evaluate(context, FrozenDefinitions(c), layers, FrozenRules(c)) ==
        Evaluate(context, LiveDefinitions(rows), layers, rows.rules)
      <==> Evaluate(context, LiveDefinitions(rows), layers, rows.rules).Err? || LiteralsFit(context, rows)
  {
    hide PrepareAll, LiveDefinitions, CanonicalPayload, Freeze, AppliesToProject, LiteralFits, FrozenDefinitions,
         OrderLayers, EvaluateOrdered, DistinctKeys;
    var live, c := LiveDefinitions(rows), Freeze(rows);
    EvaluateSucceeds(context, live, Versions(rows.choiceSets), layers, rows.rules);
    if LiteralsFit(context, rows) {
      ReplayedRulesFit(context, rows, layers);
    } else if Evaluate(context, live, layers, rows.rules).Ok? {
      var i :| 0 <= i < |rows.rules| && AppliesToProject(rows.rules[i].scope, context) && !LiteralFits(rows.rules[i],
        live);
      ReplayedRuleTooLong(context, rows, layers, i);
    } else {
      ReplayedParameters(rows);
      OnlyError(Evaluate(context, live, layers, rows.rules));
      OnlyError(Evaluate(context, FrozenDefinitions(c), layers, FrozenRules(c)));
    }
  }

  // ---------------------------------------------------------------- a literal that does not survive

  const NUMBER_ROW := ParameterRow("n", "Number", None, Number, None, None, None, None, None, false, None, None, 0,
    true)

  const TINY_RULE := Rule("r", "Rule", Error, 1, Scope([], [], [], [], [], []),
    RequiredIf("n", Decimals.TinyNumber(), "n", 1))

  function FixedSet(code: string): ChoiceSetRow { ChoiceSetRow(code, code, 1, true, []) }

  /** One number parameter and a rule whose literal fills the digit limit behind a leading dot. */
  function TinyRows(): Rows {
    Rows([], [NUMBER_ROW], [FixedSet("device_type"), FixedSet("project_category"), FixedSet("active_direction"),
      FixedSet("gate_direction")], [TINY_RULE])
  }

  lemma {:induction false} TinyParameters()
    ensures SortedParameters(TinyRows()) == [NUMBER_ROW] && NeededSets([NUMBER_ROW]) == FIXED_PROFILE_CHOICE_SETS
  {
    assert [NUMBER_ROW][1..] == [];
  }

  lemma {:induction false} FixedSetsPresent()
    ensures SetsPresent(TinyRows())
  {
    hide NeededSets, SetByCode, SortedParameters;
    TinyParameters();
    var sets := TinyRows().choiceSets;
    forall a, b | 0 <= a < b < |sets| ensures sets[a].code != sets[b].code {
      assert sets[a].code[0] != sets[b].code[0];
    }
    forall i | 0 <= i < |FIXED_PROFILE_CHOICE_SETS| ensures SetByCode(sets, FIXED_PROFILE_CHOICE_SETS[i]).Some? {
      SetByCodeAt(sets, i);
    }
  }

  lemma {:induction false} TinyDefinition()
    ensures var p := LiveDefinition(NUMBER_ROW, TinyRows().choiceSets);
      && LiveDefinitions(TinyRows()) == [p] && p.code == "n" && p.valueType.Number? && Prepare(p).Ok?
      && CanonicalParameter(p).Ok?
  {
    hide SetByCode, SortedParameters;
    TinyParameters();
    assert [NUMBER_ROW][1..] == [];
  }

  lemma {:induction false} OneParameter(p: ParameterDefinition)
    requires Prepare(p).Ok? && CanonicalParameter(p).Ok?
    ensures PrepareAll([p]).Ok? && FindParameter([p], p.code) == Some(p) && EachParameter(SortBy([p], CodeKey)).Ok?
  {
    hide Prepare, CanonicalParameter;
    var none: seq<ParameterDefinition> := [];
    assert [p][1..] == none && [p][..0] == none;
    assert PrepareEach(none).Ok? && EachParameter(none).Ok?;
    assert SortBy([p], CodeKey) == [p];
  }

  lemma {:induction false} OneRule(r: Rule, ps: seq<ParameterDefinition>)
    requires CanonicalRule(r, ps).Ok?
    ensures DistinctKeys([r], RuleCodeKey) && EachRule(SortBy([r], RuleOrder), ps).Ok?
  {
    hide CanonicalRule;
    var none: seq<Rule> := [];
    assert [r][1..] == none && EachRule(none, ps).Ok?;
    assert SortBy([r], RuleOrder) == [r];
  }

  lemma {:induction false} NoChoiceSets(p: ParameterDefinition, versions: map<string, int>)
    requires p.valueType.Number?
    ensures DistinctKeys([p], CodeKey) && ChoiceSetsBound([p]) && VersionsKnown([p], versions)
  {
  }

  lemma {:induction false} TinyPayload()
    ensures var ps := LiveDefinitions(TinyRows());
      && PrepareAll(ps).Ok? && FindParameter(ps, "n").Some? && FindParameter(ps, "n").value.valueType.Number?
      && CanonicalPayload(ps, Versions(TinyRows().choiceSets), [TINY_RULE]).Ok?
  {
    hide LiveDefinitions, LiveDefinition, Prepare, PrepareAll, CanonicalParameter, EachParameter, EachRule, SortBy,
         DistinctKeys, ChoiceSetsBound, VersionsKnown, FindParameter, Decimals.Normalize, Versions, Decimals.TinyNumber,
         CanonicalScope;
    TinyDefinition();
    var p := LiveDefinition(NUMBER_ROW, TinyRows().choiceSets);
    OneParameter(p);
    Decimals.NormalizeTwiceFails();
    TinyNumberNotEmpty();
    assert CanonicalTyped(Number, Some(Decimals.TinyNumber())).Ok?;
    assert CanonicalRule(TINY_RULE, [p]).Ok?;
    OneRule(TINY_RULE, [p]);
    NoChoiceSets(p, Versions(TinyRows().choiceSets));
  }

  lemma {:induction false} TinyNumberNotEmpty()
    ensures Decimals.TinyNumber() != ""
  {
  }

  /** Rows the snapshot accepts whose replay fails on every sheet that evaluates live. */
  lemma {:induction false} ReplayCanFail(context: ProjectContext, layers: seq<LayerInput>)
    requires DistinctKeys(layers, LayerKeyOf)
    ensures Snapshot(TinyRows()).Ok? && !LiteralsFit(context, TinyRows())
    ensures var c := Snapshot(TinyRows()).value.content;
      && Evaluate(context, LiveDefinitions(TinyRows()), layers, TinyRows().rules).Ok?
      && Evaluate(context, FrozenDefinitions(c), layers, FrozenRules(c)).Err?
  {
    var rows := TinyRows();
    hide PrepareAll, LiveDefinitions, CanonicalPayload, Freeze, FrozenDefinitions, OrderLayers, EvaluateOrdered,
         DistinctKeys, FindParameter, Decimals.TinyNumber, Versions, SetsPresent, Decimals.FillsTheLimitBehindADot;
    FixedSetsPresent();
    TinyPayload();
    Decimals.NormalizeTwiceFails();
    EvaluateSucceeds(context, LiveDefinitions(rows), Versions(rows.choiceSets), layers, rows.rules);
    assert !LiteralFits(rows.rules[0], LiveDefinitions(rows)) && AppliesToProject(rows.rules[0].scope, context);
    ReplayedRuleTooLong(context, rows, layers, 0);
  }

  // ---------------------------------------------------------------- when the captured document is accepted

  predicate PresentableCategory(r: CategoryRow) { r.code != "" && r.displayName != "" && r.sortOrder >= 0 }

  predicate PresentableParameter(r: ParameterRow) { r.code != "" && r.displayName != "" && r.sortOrder >= 0 }

  /** Every set that is captured for the parameters is valid. */
  predicate PresentableSets(parameters: seq<ParameterRow>, sets: seq<ChoiceSetRow>) {
    forall code :: code in NeededSets(parameters) && SetByCode(sets, code).Some? ==>
      ValidSet(SetByCode(sets, code).value)
  }

  /** What the captured rows must show for the frozen view to accept them. */
  predicate Presentable(rows: Rows) {
    var categories, parameters := ActiveCategories(rows.categories), ActiveParameters(rows.parameters);
    && (forall r :: r in categories ==> PresentableCategory(r))
    && DistinctKeys(categories, CategoryCodeKey)
    && (forall r :: r in parameters ==> PresentableParameter(r))
    && PresentableSets(parameters, rows.choiceSets)
    && (forall r :: r in rows.rules ==> ValidRule(r))
  }

  function CategoryCodeKey(r: CategoryRow): Key { [Txt(r.code)] }

  function OptionCodeKey(o: OptionRow): Key { [Txt(o.code)] }

  lemma {:induction false} SameTextKey(a: string, b: string)
    ensures [Txt(a)] == [Txt(b)] <==> a == b
  {
    if [Txt(a)] == [Txt(b)] { assert [Txt(a)][0] == [Txt(b)][0]; }
  }

  /** The category part of the document is valid exactly when the captured rows are presentable. */
  lemma {:induction false} CategoriesAccepted(rows: Rows)
    ensures var cs := Freeze(rows).categories; var active := ActiveCategories(rows.categories);
      && ((forall i :: 0 <= i < |cs| ==> ValidCategory(cs[i])) <==>
        (forall r :: r in active ==> PresentableCategory(r)))
      && (DistinctTexts(CategoryCodes(cs)) <==> DistinctKeys(active, CategoryCodeKey))
  {
    hide SortBy, ActiveCategories, FreezeParameters, FreezeSets, FreezeRules, SortedParameters;
    var active := ActiveCategories(rows.categories);
    var s := SortBy(active, CategoryOrder);
    var cs := FreezeCategories(s);
    SortProps(active, CategoryOrder);
    forall i | 0 <= i < |s| ensures s[i] in active && (ValidCategory(cs[i]) <==> PresentableCategory(s[i])) {
      assert s[i] in s;
    }
    forall r | r in active ensures exists i :: 0 <= i < |s| && s[i] == r { var i := IndexOf(s, r); }
    forall i, j | 0 <= i < j < |s| ensures CategoryCodeKey(s[i]) == CategoryCodeKey(s[j]) <==> s[i].code == s[j].code {
      SameTextKey(s[i].code, s[j].code);
    }
    if DistinctKeys(active, CategoryCodeKey) { DistinctKeysOfPermutation(active, s, CategoryCodeKey); }
    if DistinctTexts(CategoryCodes(cs)) {
      forall i, j | 0 <= i < j < |s| ensures CategoryCodeKey(s[i]) != CategoryCodeKey(s[j]) {
        assert CategoryCodes(cs)[i] != CategoryCodes(cs)[j];
      }
      DistinctKeysOfPermutation(s, active, CategoryCodeKey);
    }
  }

  lemma {:induction false} NeededSetsPermuted(xs: seq<ParameterRow>, ys: seq<ParameterRow>, code: string)
    requires forall r :: r in xs ==> r in ys
    ensures code in NeededSets(xs) ==> code in NeededSets(ys)
  {
    if |xs| > 0 {
      assert xs[0] in ys;
      if xs[0].valueType.Choice? && code == SetCodeText(xs[0]) {
        NeededSetsMember(ys, IndexOf(ys, xs[0]));
      } else {
        NeededSetsPermuted(xs[1..], ys, code);
      }
    } else if code in NeededSets(xs) {
      FixedSetsNeeded(ys, code);
    }
  }

  lemma {:induction false} FixedSetsNeeded(rows: seq<ParameterRow>, code: string)
    requires code in FIXED_PROFILE_CHOICE_SETS
    ensures code in NeededSets(rows)
  {
    if |rows| > 0 { FixedSetsNeeded(rows[1..], code); }
  }

  lemma {:induction false} FrozenSetValid(row: ChoiceSetRow)
    ensures ValidSet(FreezeSet(row)) <==> ValidSet(row)
  {
    hide SortBy, ValidOption;
    var o, s := row.options, SortBy(row.options, OptionOrder);
    SortProps(o, OptionOrder);
    OptionsDistinct(o);
    OptionsDistinct(s);
    if DistinctKeys(o, OptionCodeKey) { DistinctKeysOfPermutation(o, s, OptionCodeKey); }
    if DistinctKeys(s, OptionCodeKey) { DistinctKeysOfPermutation(s, o, OptionCodeKey); }
    forall i | 0 <= i < |s| ensures s[i] in o { assert s[i] in s; }
    forall i | 0 <= i < |o| ensures o[i] in s { assert o[i] in o; }
  }

  lemma {:induction false} OptionsDistinct(options: seq<OptionRow>)
    ensures DistinctTexts(OptionCodes(options)) <==> DistinctKeys(options, OptionCodeKey)
  {
    var codes := OptionCodes(options);
    forall i, j | 0 <= i < j < |options|
      ensures OptionCodeKey(options[i]) == OptionCodeKey(options[j]) <==> codes[i] == codes[j] {
      SameTextKey(options[i].code, options[j].code);
    }
  }

  /** The captured sets have distinct codes, and are valid exactly when the needed rows are. */
  lemma {:induction false} SetsAccepted(rows: Rows)
    requires SetsPresent(rows)
    ensures var cs := Freeze(rows).choiceSets;
      && DistinctTexts(SetCodes(cs))
      && ((forall i :: 0 <= i < |cs| ==> ValidSet(cs[i])) <==>
        PresentableSets(ActiveParameters(rows.parameters), rows.choiceSets))
  {
    hide SetByCode, SortBy, NeededSets, Needed, FreezeSets, FreezeSet, ValidSet, FreezeRules;
    var needed, active := Needed(rows), ActiveParameters(rows.parameters);
    NeededProps(rows);
    NeededPresent(rows);
    FreezeSetsAt(needed, rows.choiceSets);
    var cs := FreezeSets(needed, rows.choiceSets);
    forall i, j | 0 <= i < j < |cs| ensures cs[i].code != cs[j].code {
      assert TextKey(needed[i]) != TextKey(needed[j]);
    }
    SortProps(active, ParameterOrder);
    forall code ensures code in needed <==> code in NeededSets(active) {
      NeededSetsPermuted(active, SortedParameters(rows), code);
      NeededSetsPermuted(SortedParameters(rows), active, code);
    }
    forall i | 0 <= i < |cs|
      ensures needed[i] in needed && (ValidSet(cs[i]) <==> ValidSet(SetByCode(rows.choiceSets, needed[i]).value)) {
      FrozenSetValid(SetByCode(rows.choiceSets, needed[i]).value);
    }
    forall code | code in needed ensures exists i :: 0 <= i < |needed| && needed[i] == code {
      var i := IndexOf(needed, code);
    }
  }

  /** Captured parameters have distinct codes and find their sets; their texts and orders decide. */
  lemma {:induction false} ParametersAccepted(rows: Rows)
    requires Snapshot(rows).Ok?
    ensures var c := Freeze(rows);
      && DistinctTexts(ParameterCodes(c.parameters))
      && ((forall i :: 0 <= i < |c.choiceSets| ==> ValidSet(c.choiceSets[i])) ==>
            ((forall i :: 0 <= i < |c.parameters| ==> ValidParameter(c.parameters[i], SetCodes(c.choiceSets)))
             <==> (forall r :: r in ActiveParameters(rows.parameters) ==> PresentableParameter(r))))
  {
    hide SortBy, ActiveParameters, ValidSet, FreezeCategories, FreezeSets, FreezeRules, SetByCode, NeededSets, Needed,
         EachParameter, EachRule, ChoiceSetsBound, VersionsKnown, Versions;
    var c, s, active := Freeze(rows), SortedParameters(rows), ActiveParameters(rows.parameters);
    SortProps(active, ParameterOrder);
    var live := LiveDefinitions(rows);
    forall i, j | 0 <= i < j < |c.parameters| ensures c.parameters[i].code != c.parameters[j].code {
      assert CodeKey(live[i]) != CodeKey(live[j]);
    }
    if forall i :: 0 <= i < |c.choiceSets| ==> ValidSet(c.choiceSets[i]) {
      forall i | 0 <= i < |s|
        ensures s[i] in active && (ValidParameter(c.parameters[i], SetCodes(c.choiceSets)) <==>
          PresentableParameter(s[i])) {
        assert s[i] in s;
        if s[i].valueType.Choice? {
          NeededSetsMember(s, i);
          FrozenSetListed(rows, SetCodeText(s[i]));
        }
      }
      forall r | r in active ensures exists i :: 0 <= i < |s| && s[i] == r { var i := IndexOf(s, r); }
    }
  }

  lemma {:induction false} FrozenSetListed(rows: Rows, code: string)
    requires SetsPresent(rows) && code in NeededSets(SortedParameters(rows))
    requires forall i :: 0 <= i < |Freeze(rows).choiceSets| ==> ValidSet(Freeze(rows).choiceSets[i])
    ensures code != "" && code in SetCodes(Freeze(rows).choiceSets)
  {
    hide SetByCode, Freeze, NeededSets, SortedParameters;
    FrozenSetFound(rows, code);
    var sets := Freeze(rows).choiceSets;
    SetByCodeCode(sets, code);
    var j := IndexOf(sets, SetByCode(sets, code).value);
    assert SetCodes(sets)[j] == code && ValidSet(sets[j]);
  }

  /** Captured rules have distinct codes, and are valid exactly when the given rules are. */
  lemma {:induction false} RulesAccepted(rows: Rows)
    requires Snapshot(rows).Ok?
    ensures var rs := Freeze(rows).rules;
      && DistinctTexts(CodesOf(rs))
      && ((forall i :: 0 <= i < |rs| ==> ValidRule(rs[i])) <==> (forall r :: r in rows.rules ==> ValidRule(r)))
  {
    hide SortBy, LiveDefinitions, FreezeRule, FreezeSets, FreezeParameters, FreezeCategories, Versions,
         CanonicalPayload, ValidRule;
    var live := LiveDefinitions(rows);
    var frozen := FreezeRules(rows.rules, live);
    var s := SortBy(frozen, RuleCodeKey);
    SortProps(frozen, RuleCodeKey);
    forall i, j | 0 <= i < j < |frozen| ensures RuleCodeKey(frozen[i]) != RuleCodeKey(frozen[j]) {
      PayloadAcceptsRules(live, Versions(rows.choiceSets), rows.rules, i);
      FrozenHeader(rows.rules[i], live);
      FrozenHeader(rows.rules[j], live);
      assert RuleCodeKey(rows.rules[i]) != RuleCodeKey(rows.rules[j]);
    }
    DistinctKeysOfPermutation(frozen, s, RuleCodeKey);
    forall i, j | 0 <= i < j < |s| ensures s[i].code != s[j].code {
      assert RuleCodeKey(s[i]) != RuleCodeKey(s[j]);
    }
    forall i | 0 <= i < |frozen| ensures frozen[i] in s && (ValidRule(frozen[i]) <==> ValidRule(rows.rules[i])) {
      assert frozen[i] in frozen;
      FrozenRuleValid(rows.rules[i], live);
    }
    forall i | 0 <= i < |s| ensures exists k :: 0 <= k < |frozen| && s[i] == frozen[k] {
      assert s[i] in s;
      var k := IndexOf(frozen, s[i]);
    }
    forall r | r in rows.rules ensures exists i :: 0 <= i < |rows.rules| && rows.rules[i] == r {
      var i := IndexOf(rows.rules, r);
    }
  }

  lemma {:induction false} FrozenRuleValid(rule: Rule, ps: seq<ParameterDefinition>)
    ensures ValidRule(FreezeRule(rule, ps)) <==> ValidRule(rule)
  {
    hide CanonicalScope, CanonicalTyped, FindParameter, HasChoice;
  }

  /** A captured document passes every check of the frozen view exactly when the captured rows are presentable. */
  lemma {:induction false} SnapshotIsAccepted(rows: Rows)
    requires Snapshot(rows).Ok?
    ensures Accepted(Snapshot(rows).value) <==> Presentable(rows)
  {
    hide Freeze, LiveDefinitions, CanonicalPayload, DistinctTexts, DistinctKeys, ValidSet, ValidParameter, ValidRule,
         ValidCategory, PresentableCategory, PresentableParameter, PresentableSets, ActiveCategories, ActiveParameters;
    CategoriesAccepted(rows);
    ParametersAccepted(rows);
    SetsAccepted(rows);
    RulesAccepted(rows);
  }

  lemma {:induction false} SetListed(sets: seq<ChoiceSetRow>, code: string)
    ensures code in SetCodes(sets) ==> SetByCode(sets, code).Some?
  {
    if |sets| > 0 && sets[|sets| - 1].code != code && code in SetCodes(sets) {
      var n, codes := |sets| - 1, SetCodes(sets);
      var i := IndexOf(codes, code);
      assert SetCodes(sets[..n])[i] == code;
      SetListed(sets[..n], code);
    }
  }

  /** An accepted document always yields its parameter definitions. */
  lemma {:induction false} AcceptedFindsSets(d: Document)
    requires Accepted(d)
    ensures forall i :: 0 <= i < |d.content.parameters| ==> SetFound(d.content.parameters[i], d.content.choiceSets)
  {
    hide SetByCode, DistinctTexts, ValidSet, ValidRule, ValidCategory;
    forall i | 0 <= i < |d.content.parameters| ensures SetFound(d.content.parameters[i], d.content.choiceSets) {
      assert ValidParameter(d.content.parameters[i], SetCodes(d.content.choiceSets));
      if FrozenSetCode(d.content.parameters[i]).Some? { SetListed(d.content.choiceSets,
        FrozenSetCode(d.content.parameters[i]).value); }
    }
  }
}
