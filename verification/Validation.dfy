/**
 * What project validation means (backend/app/domain/validation/evaluator.py, types.py, scope.py).
 *
 * Everything here is a function of the inputs; `Evaluator` holds the program's loops and
 * is proved to compute exactly `Evaluate`.
 */
module Validation {
  import opened Results
  import opened Ordering
  import opened Texts
  import Decimals
  import Pattern

  datatype ValueType = Number | Text | Choice

  datatype Severity = Error | Warning

  datatype ChoiceDefinition = ChoiceDefinition(code: string, isActive: bool)

  datatype ParameterDefinition = ParameterDefinition(
    code: string, displayName: string, valueType: ValueType, required: bool,
    pattern: Option<string>, patternHint: Option<string>,
    minValue: Option<string>, maxValue: Option<string>,
    choiceSetCode: Option<string>, choices: seq<ChoiceDefinition>, sortOrder: int)

  datatype ProjectContext = ProjectContext(projectId: int, lineId: string, processId: string)

  datatype ConditionInput = ConditionInput(
    id: int, labelText: string, conditionIndex: int, isPor: bool, values: map<string, Option<string>>)

  datatype LayerInput = LayerInput(
    key: string, layerId: string, stepSeq: string, eqpType: Option<string>, areaName: Option<string>,
    sortOrder: int, conditions: seq<ConditionInput>)

  datatype Scope = Scope(
    lineIds: seq<string>, processIds: seq<string>, layerIds: seq<string>,
    stepSeqs: seq<string>, eqpTypes: seq<string>, areaNames: seq<string>)

  datatype Spec =
    | RequiredIf(whenCode: string, equals: string, requiredCode: string, schemaVersion: int)
    | PriorPor(sourceCode: string, candidateCode: string, schemaVersion: int)

  datatype Rule = Rule(code: string, name: string, severity: Severity, version: int, scope: Scope, spec: Spec)

  datatype DetailValue = NoValue | TextValue(text: string) | IntValue(n: int)

  datatype Issue = Issue(
    key: string, code: string, ruleCode: Option<string>, ruleVersion: Option<int>, severity: Severity,
    conditionId: int, layerKey: string, parameterCode: string, details: map<string, DetailValue>)

  datatype ConfigurationError = ConfigurationInvalid

  lemma {:induction false} OnlyError<T>(r: Result<T, ConfigurationError>)
    ensures r.Err? ==> r.error == ConfigurationInvalid
  {
  }

  // ---------------------------------------------------------------- typed values

  function CanonicalTyped(t: ValueType, value: Option<string>): Result<Option<string>, ConfigurationError> {
    if value.None? || value.value == "" then Ok(None)
    else if t.Number? then
      match Decimals.Normalize(value.value) case Ok(x) => Ok(Some(x)) case Err(_) => Err(ConfigurationInvalid)
    else Ok(value)
  }

  /** A malformed stored number has no relation identity. */
  function StoredTyped(t: ValueType, value: Option<string>): Option<string> {
    match CanonicalTyped(t, value) case Ok(x) => x case Err(_) => None
  }

  function Lookup(values: map<string, Option<string>>, code: string): Option<string> {
    if code in values then values[code] else None
  }

  predicate Blank(value: Option<string>) { value.None? || value.value == "" }

  // ---------------------------------------------------------------- scopes

  predicate Admits(filter: seq<string>, value: string) { |filter| == 0 || value in filter }

  predicate AdmitsOptional(filter: seq<string>, value: Option<string>) {
    |filter| == 0 || (value.Some? && value.value in filter)
  }

  predicate AppliesToProject(scope: Scope, context: ProjectContext) {
    Admits(scope.lineIds, context.lineId) && Admits(scope.processIds, context.processId)
  }

  predicate AppliesToLayer(scope: Scope, layer: LayerInput) {
    && Admits(scope.layerIds, layer.layerId)
    && Admits(scope.stepSeqs, layer.stepSeq)
    && AdmitsOptional(scope.eqpTypes, layer.eqpType)
    && AdmitsOptional(scope.areaNames, layer.areaName)
  }

  // ---------------------------------------------------------------- parameters

  /** A checked parameter: the definition fields evaluation reads, with canonical bounds. */
  datatype Prepared = Prepared(
    code: string, valueType: ValueType, required: bool, patternHint: Option<string>, choiceSetCode: Option<string>,
    sortOrder: int, minValue: Option<string>, maxValue: Option<string>,
    pattern: Option<Pattern.PortablePattern>, choices: map<string, bool>)

  function CanonicalBound(value: Option<string>): Result<Option<string>, ConfigurationError> {
    match value
    case None => Ok(None)
    case Some(text) => match Decimals.Normalize(text) case Ok(x) => Ok(Some(x)) case Err(_) => Err(ConfigurationInvalid)
  }

  function ChoiceMap(choices: seq<ChoiceDefinition>): Result<map<string, bool>, ConfigurationError> {
    if |choices| == 0 then Ok(map[])
    else
      var n := |choices| - 1;
      var rest :- ChoiceMap(choices[..n]);
      if choices[n].code in rest then Err(ConfigurationInvalid) else Ok(rest[choices[n].code := choices[n].isActive])
  }

  function Prepare(p: ParameterDefinition): Result<Prepared, ConfigurationError> {
    match p.valueType
    case Number =>
      if p.pattern.Some? || p.patternHint.Some? || |p.choices| > 0 || p.choiceSetCode.Some?
        then Err(ConfigurationInvalid)
      else
        var lo :- CanonicalBound(p.minValue);
        var hi :- CanonicalBound(p.maxValue);
        if lo.Some? && hi.Some? && Decimals.Value(lo.value) > Decimals.Value(hi.value) then Err(ConfigurationInvalid)
        else Ok(Prepared(p.code, p.valueType, p.required, p.patternHint, p.choiceSetCode, p.sortOrder, lo, hi, None,
          map[]))
    case Text =>
      if p.minValue.Some? || p.maxValue.Some? || |p.choices| > 0 || p.choiceSetCode.Some?
        || p.pattern.None? != p.patternHint.None?
      then Err(ConfigurationInvalid)
      else if p.pattern.None? then
        Ok(Prepared(p.code, p.valueType, p.required, p.patternHint, p.choiceSetCode, p.sortOrder, None, None, None,
          map[]))
      else (match Pattern.Compile(p.pattern.value)
        case Err(_) => Err(ConfigurationInvalid)
        case Ok(compiled) =>
          Ok(Prepared(p.code, p.valueType, p.required, p.patternHint, p.choiceSetCode, p.sortOrder, None, None,
            Some(compiled), map[])))
    case Choice =>
      if p.minValue.Some? || p.maxValue.Some? || p.pattern.Some? || p.patternHint.Some? || p.choiceSetCode.None?
        then Err(ConfigurationInvalid)
      else
        var choices :- ChoiceMap(p.choices);
        Ok(Prepared(p.code, p.valueType, p.required, p.patternHint, p.choiceSetCode, p.sortOrder, None, None, None,
          choices))
  }

  function PrepareEach(ps: seq<ParameterDefinition>): Result<seq<Prepared>, ConfigurationError> {
    if |ps| == 0 then Ok([])
    else
      var n := |ps| - 1;
      var rest :- PrepareEach(ps[..n]);
      var last :- Prepare(ps[n]);
      Ok(rest + [last])
  }

  function CodeKey(p: ParameterDefinition): Key { [Txt(p.code)] }

  function PreparedOrder(p: Prepared): Key { [Num(p.sortOrder), Txt(p.code)] }

  /** The checked parameters in (sort order, code) order; duplicate codes are refused. */
  function PrepareAll(ps: seq<ParameterDefinition>): Result<seq<Prepared>, ConfigurationError> {
    if !DistinctKeys(ps, CodeKey) then Err(ConfigurationInvalid)
    else
      var each :- PrepareEach(ps);
      Ok(SortBy(each, PreparedOrder))
  }

  function Find(ps: seq<Prepared>, code: string): Option<Prepared> {
    if |ps| == 0 then None else if ps[0].code == code then Some(ps[0]) else Find(ps[1..], code)
  }

  function PreparedCode(p: Prepared): Key { [Txt(p.code)] }

  function Codes(values: seq<Prepared>): set<string> {
    if |values| == 0 then {} else Codes(values[..|values| - 1]) + {values[|values| - 1].code}
  }

  lemma {:induction false} FindMember(ps: seq<Prepared>, code: string)
    ensures Find(ps, code).Some? ==> Find(ps, code).value in ps && Find(ps, code).value.code == code
    ensures Find(ps, code).None? ==> forall p :: p in ps ==> p.code != code
  {
    if |ps| > 0 && ps[0].code != code { FindMember(ps[1..], code); }
  }

  lemma {:induction false} FindUnique(ps: seq<Prepared>, p: Prepared)
    requires DistinctKeys(ps, PreparedCode) && p in ps
    ensures Find(ps, p.code) == Some(p)
  {
    FindMember(ps, p.code);
    var q := Find(ps, p.code).value;
    var i, j := IndexOf(ps, p), IndexOf(ps, q);
    assert PreparedCode(ps[i]) == PreparedCode(ps[j]);
  }

  lemma {:induction false} PrepareCode(p: ParameterDefinition)
    ensures Prepare(p).Ok? ==> Prepare(p).value.code == p.code
  {
    hide ChoiceMap, CanonicalBound, Pattern.Compile, Decimals.Value;
  }

  lemma {:induction false} PrepareEachCodes(parameters: seq<ParameterDefinition>)
    requires PrepareEach(parameters).Ok?
    ensures var ps := PrepareEach(parameters).value;
      |ps| == |parameters| && forall i :: 0 <= i < |ps| ==> ps[i].code == parameters[i].code
  {
    if |parameters| > 0 { PrepareEachCodes(parameters[..|parameters| - 1]); }
  }

  // ---------------------------------------------------------------- layers

  function ConditionOrder(c: ConditionInput): Key { [Num(c.conditionIndex), Num(c.id)] }

  function LayerOrder(l: LayerInput): Key { [Num(l.sortOrder), Txt(l.key)] }

  function LayerKeyOf(l: LayerInput): Key { [Txt(l.key)] }

  function OrderConditions(l: LayerInput): LayerInput {
    l.(conditions := SortBy(l.conditions, ConditionOrder))
  }

  function OrderEach(ls: seq<LayerInput>): (r: seq<LayerInput>)
    ensures |r| == |ls| && forall i :: 0 <= i < |ls| ==> r[i] == OrderConditions(ls[i])
  {
    if |ls| == 0 then [] else [OrderConditions(ls[0])] + OrderEach(ls[1..])
  }

  function OrderLayers(ls: seq<LayerInput>): seq<LayerInput> { OrderEach(SortBy(ls, LayerOrder)) }

  lemma {:induction false} TakeNext<T>(xs: seq<T>, i: nat)
    requires i < |xs|
    ensures xs[..i + 1][..i] == xs[..i] && xs[..i + 1][i] == xs[i] && |xs[..i + 1]| == i + 1
  {
  }

  // ---------------------------------------------------------------- issues of one cell

  function StandaloneIssue(code: string, severity: Severity, c: ConditionInput, l: LayerInput, parameterCode: string,
      details: map<string, DetailValue>): Issue {
    Issue(code + ":" + IntText(c.id) + ":" + parameterCode, code, None, None, severity, c.id, l.key, parameterCode,
      details)
  }

  function RelationIssue(code: string, rule: Rule, c: ConditionInput, l: LayerInput, parameterCode: string,
      details: map<string, DetailValue>): Issue {
    Issue(code + ":" + rule.code + ":" + IntText(rule.version) + ":" + IntText(c.id) + ":" + parameterCode,
          code, Some(rule.code), Some(rule.version), rule.severity, c.id, l.key, parameterCode, details)
  }

  function OptionalText(value: Option<string>): DetailValue {
    match value case None => NoValue case Some(text) => TextValue(text)
  }

  /** At most one standalone issue exists for a cell. */
  function CellIssue(p: Prepared, l: LayerInput, c: ConditionInput): Option<Issue> {
    var raw := Lookup(c.values, p.code);
    if Blank(raw) then
      if p.required then Some(StandaloneIssue("required", Error, c, l, p.code, map[])) else None
    else match p.valueType
      case Number =>
        (match Decimals.Normalize(raw.value)
         case Err(_) => Some(StandaloneIssue("number_malformed", Error, c, l, p.code, map[]))
         case Ok(canonical) =>
           var details := map["max_value" := OptionalText(p.maxValue), "min_value" := OptionalText(p.minValue)];
           if p.minValue.Some? && Decimals.Value(canonical) < Decimals.Value(p.minValue.value) then
             Some(StandaloneIssue("range_min", Error, c, l, p.code, details))
           else if p.maxValue.Some? && Decimals.Value(canonical) > Decimals.Value(p.maxValue.value) then
             Some(StandaloneIssue("range_max", Error, c, l, p.code, details))
           else None)
      case Text =>
        if p.pattern.Some? && !Pattern.FullMatch(p.pattern.value, raw.value) then
          Some(StandaloneIssue("pattern_mismatch", Error, c, l, p.code,
            map["pattern_hint" := OptionalText(p.patternHint)]))
        else None
      case Choice =>
        if raw.value !in p.choices then Some(StandaloneIssue("choice_unknown", Error, c, l, p.code, map[]))
        else if !p.choices[raw.value] then Some(StandaloneIssue("choice_inactive", Warning, c, l, p.code, map[]))
        else None
  }

  function AsSeq<T>(x: Option<T>): seq<T> { match x case None => [] case Some(v) => [v] }

  function CellIssues(ps: seq<Prepared>, l: LayerInput, c: ConditionInput): seq<Issue> {
    if |ps| == 0 then [] else CellIssues(ps[..|ps| - 1], l, c) + AsSeq(CellIssue(ps[|ps| - 1], l, c))
  }

  function ConditionIssues(ps: seq<Prepared>, l: LayerInput, cs: seq<ConditionInput>): seq<Issue> {
    if |cs| == 0 then [] else ConditionIssues(ps, l, cs[..|cs| - 1]) + CellIssues(ps, l, cs[|cs| - 1])
  }

  function StandaloneIssues(ps: seq<Prepared>, ls: seq<LayerInput>): seq<Issue> {
    if |ls| == 0 then []
    else StandaloneIssues(ps, ls[..|ls| - 1]) + ConditionIssues(ps, ls[|ls| - 1], ls[|ls| - 1].conditions)
  }

  // ---------------------------------------------------------------- issues of one rule

  /** A rule whose references and literal have been resolved against the parameters. */
  datatype Check =
    | RequiredCheck(rule: Rule, whenType: ValueType, equals: string)
    | PriorCheck(rule: Rule, valueType: ValueType)

  function ResolveRule(rule: Rule, ps: seq<Prepared>): (r: Result<Check, ConfigurationError>)
    ensures r.Ok? ==> WellFormedCheck(r.value) && r.value.rule == rule
  {
    if rule.spec.schemaVersion != 1 then Err(ConfigurationInvalid)
    else match rule.spec
      case RequiredIf(whenCode, literal, requiredCode, _) =>
        var when, target := Find(ps, whenCode), Find(ps, requiredCode);
        if when.None? || target.None? then Err(ConfigurationInvalid)
        else
          var equals :- CanonicalTyped(when.value.valueType, Some(literal));
          if equals.None? then Err(ConfigurationInvalid)
          else if when.value.valueType.Choice? && equals.value !in when.value.choices then Err(ConfigurationInvalid)
          else Ok(RequiredCheck(rule, when.value.valueType, equals.value))
      case PriorPor(sourceCode, candidateCode, _) =>
        var source, candidate := Find(ps, sourceCode), Find(ps, candidateCode);
        if source.None? || candidate.None? then Err(ConfigurationInvalid)
        else if source.value.valueType != candidate.value.valueType then Err(ConfigurationInvalid)
        else if source.value.valueType.Choice? && source.value.choiceSetCode != candidate.value.choiceSetCode
          then Err(ConfigurationInvalid)
        else Ok(PriorCheck(rule, source.value.valueType))
  }

  predicate WellFormedCheck(k: Check) {
    match k
    case RequiredCheck(rule, _, _) => rule.spec.RequiredIf?
    case PriorCheck(rule, _) => rule.spec.PriorPor?
  }

  function FirstPor(cs: seq<ConditionInput>): Option<ConditionInput> {
    if |cs| == 0 then None else if cs[0].isPor then Some(cs[0]) else FirstPor(cs[1..])
  }

  /** The candidate value of a layer's first POR row, if it has one. */
  function PorValue(l: LayerInput, t: ValueType, candidateCode: string): Option<string> {
    match FirstPor(l.conditions) case None => None case Some(por) => StoredTyped(t, Lookup(por.values, candidateCode))
  }

  /** Some strictly earlier layer's first POR row carries the value. */
  predicate CarriedBefore(ls: seq<LayerInput>, rank: nat, t: ValueType, candidateCode: string, value: string)
    requires rank <= |ls|
  {
    exists j :: 0 <= j < rank && PorValue(ls[j], t, candidateCode) == Some(value)
  }

  /** The one issue a rule can raise on a condition of the layer at `rank`. */
  function RuleIssue(k: Check, ls: seq<LayerInput>, rank: nat, c: ConditionInput): Option<Issue>
    requires rank < |ls| && WellFormedCheck(k)
  {
    var l := ls[rank];
    if !AppliesToLayer(k.rule.scope, l) then None
    else match k
      case RequiredCheck(rule, t, equals) =>
        if StoredTyped(t, Lookup(c.values, rule.spec.whenCode)) != Some(equals) then None
        else if !Blank(Lookup(c.values, rule.spec.requiredCode)) then None
        else Some(RelationIssue("required_if", rule, c, l, rule.spec.requiredCode,
                                map["equals" := TextValue(equals),
                                    "required_parameter_code" := TextValue(rule.spec.requiredCode),
                                    "when_parameter_code" := TextValue(rule.spec.whenCode)]))
      case PriorCheck(rule, t) =>
        var value := StoredTyped(t, Lookup(c.values, rule.spec.sourceCode));
        if value.None? || CarriedBefore(ls, rank, t, rule.spec.candidateCode, value.value) then None
        else Some(RelationIssue("value_not_found_in_prior_por", rule, c, l, rule.spec.sourceCode,
                                map["candidate_parameter_code" := TextValue(rule.spec.candidateCode),
                                    "searched_layer_count" := IntValue(rank)]))
  }

  function RuleIssuesIn(k: Check, ls: seq<LayerInput>, rank: nat, cs: seq<ConditionInput>): seq<Issue>
    requires rank < |ls| && WellFormedCheck(k)
  {
    if |cs| == 0 then [] else RuleIssuesIn(k, ls, rank, cs[..|cs| - 1]) + AsSeq(RuleIssue(k, ls, rank, cs[|cs| - 1]))
  }

  /** The rule's issues on the first `n` layers. */
  function RuleIssues(k: Check, ls: seq<LayerInput>, n: nat): seq<Issue>
    requires n <= |ls| && WellFormedCheck(k)
  {
    if n == 0 then [] else RuleIssues(k, ls, n - 1) + RuleIssuesIn(k, ls, n - 1, ls[n - 1].conditions)
  }

  function RuleOrder(r: Rule): Key { [Txt(r.code), Num(r.version)] }

  function RuleCodeKey(r: Rule): Key { [Txt(r.code)] }

  /** The issues of all rules whose project filters accept the context, in rule order. */
  function RelationIssues(context: ProjectContext, ps: seq<Prepared>, ls: seq<LayerInput>,
      rules: seq<Rule>): Result<seq<Issue>, ConfigurationError> {
    if |rules| == 0 then Ok([])
    else
      var n := |rules| - 1;
      var before :- RelationIssues(context, ps, ls, rules[..n]);
      if !AppliesToProject(rules[n].scope, context) then Ok(before)
      else
        var k :- ResolveRule(rules[n], ps);
        Ok(before + RuleIssues(k, ls, |ls|))
  }

  // ---------------------------------------------------------------- the issue order

  function LayerRank(ls: seq<LayerInput>, key: string): int {
    if |ls| == 0 then 0 else if ls[0].key == key then 0 else 1 + LayerRank(ls[1..], key)
  }

  function ConditionIndexOf(ls: seq<LayerInput>, key: string, id: int): int {
    if |ls| == 0 then 0
    else if ls[0].key == key then IndexIn(ls[0].conditions, id)
    else ConditionIndexOf(ls[1..], key, id)
  }

  /** The index recorded for an id: a dictionary keeps the last entry. */
  function IndexIn(cs: seq<ConditionInput>, id: int): int {
    if |cs| == 0 then 0
    else if cs[|cs| - 1].id == id then cs[|cs| - 1].conditionIndex
    else IndexIn(cs[..|cs| - 1], id)
  }

  function ParameterSort(ps: seq<Prepared>, code: string): int {
    match Find(ps, code) case None => 0 case Some(p) => p.sortOrder
  }

  function SeverityRank(s: Severity): int { if s.Error? then 0 else 1 }

  function IssueKey(ls: seq<LayerInput>, ps: seq<Prepared>, x: Issue): Key {
    [ Num(SeverityRank(x.severity)), Num(LayerRank(ls, x.layerKey)),
      Num(ConditionIndexOf(ls, x.layerKey, x.conditionId)), Num(x.conditionId),
      Num(ParameterSort(ps, x.parameterCode)), Txt(x.parameterCode),
      Txt(if x.ruleCode.Some? then x.ruleCode.value else ""),
      Num(if x.ruleVersion.Some? then x.ruleVersion.value else -1),
      Txt(x.key) ]
  }

  function IssueOrder(ls: seq<LayerInput>, ps: seq<Prepared>): Issue -> Key { x => IssueKey(ls, ps, x) }

  // ---------------------------------------------------------------- evaluate_project

  /** All issues on prepared inputs, in issue order. */
  function EvaluateOrdered(context: ProjectContext, ps: seq<Prepared>, ls: seq<LayerInput>,
      rules: seq<Rule>): Result<seq<Issue>, ConfigurationError> {
    var relation :- RelationIssues(context, ps, ls, rules);
    Ok(SortBy(StandaloneIssues(ps, ls) + relation, IssueOrder(ls, ps)))
  }

  function Evaluate(context: ProjectContext, parameters: seq<ParameterDefinition>, layers: seq<LayerInput>,
      rules: seq<Rule>): Result<seq<Issue>, ConfigurationError> {
    var ps :- PrepareAll(parameters);
    if !DistinctKeys(layers, LayerKeyOf) || !DistinctKeys(rules, RuleCodeKey) then Err(ConfigurationInvalid)
    else EvaluateOrdered(context, ps, OrderLayers(layers), SortBy(rules, RuleOrder))
  }

  function ErrorCount(issues: seq<Issue>): nat {
    if |issues| == 0 then 0 else (if issues[0].severity.Error? then 1 else 0) + ErrorCount(issues[1..])
  }
}
