/**
 * The evaluation loops of backend/app/domain/validation/evaluator.py.
 *
 * Evaluators append to a shared issue log; the prior-POR rule is a single sweep over
 * the ordered layers that accumulates the candidate values seen so far.
 */
module Evaluator {
  import opened Results
  import opened Ordering
  import opened Validation
  import Decimals
  import Pattern

  class IssueLog {
    var items: seq<Issue>

    constructor ()
      ensures items == []
    {
      items := [];
    }

    method Append(x: Issue)
      modifies this
      ensures items == old(items) + [x]
    {
      items := items + [x];
    }
  }

  /** The dictionary and the sequence hold the same parameters under the same codes. */
  ghost predicate Indexes(byCode: map<string, Prepared>, ps: seq<Prepared>) {
    forall code :: (code in byCode <==> Find(ps, code).Some?)
      && (code in byCode ==> Find(ps, code) == Some(byCode[code]))
  }

  lemma {:induction false} PrepareEachPrefix(parameters: seq<ParameterDefinition>, n: nat)
    requires n <= |parameters| && PrepareEach(parameters).Ok?
    ensures PrepareEach(parameters[..n]).Ok?
  {
    if n == |parameters| {
      assert parameters[..n] == parameters;
    } else {
      var m := |parameters| - 1;
      PrepareEachPrefix(parameters[..m], n);
      assert parameters[..m][..n] == parameters[..n];
    }
  }

  method PrepareParameter(p: ParameterDefinition) returns (r: Result<Prepared, ConfigurationError>)
    ensures r == Prepare(p)
  {
    var minValue: Option<string> := None;
    var maxValue: Option<string> := None;
    var pattern: Option<Pattern.PortablePattern> := None;
    var choices: map<string, bool> := map[];
    if p.valueType.Number? {
      if p.pattern.Some? || p.patternHint.Some? { return Err(ConfigurationInvalid); }
      if |p.choices| > 0 || p.choiceSetCode.Some? { return Err(ConfigurationInvalid); }
      if p.minValue.Some? {
        var bound := Decimals.Normalize(p.minValue.value);
        if bound.Err? { return Err(ConfigurationInvalid); }
        minValue := Some(bound.value);
      }
      if p.maxValue.Some? {
        var bound := Decimals.Normalize(p.maxValue.value);
        if bound.Err? { return Err(ConfigurationInvalid); }
        maxValue := Some(bound.value);
      }
      if minValue.Some? && maxValue.Some? && Decimals.Value(minValue.value) > Decimals.Value(maxValue.value) {
        return Err(ConfigurationInvalid);
      }
    } else if p.valueType.Text? {
      if p.minValue.Some? || p.maxValue.Some? { return Err(ConfigurationInvalid); }
      if |p.choices| > 0 || p.choiceSetCode.Some? { return Err(ConfigurationInvalid); }
      if p.pattern.None? != p.patternHint.None? { return Err(ConfigurationInvalid); }
      if p.pattern.Some? {
        var compiled := Pattern.CompilePattern(p.pattern.value);
        if compiled.Err? { return Err(ConfigurationInvalid); }
        pattern := Some(compiled.value);
      }
    } else {
      if p.minValue.Some? || p.maxValue.Some? { return Err(ConfigurationInvalid); }
      if p.pattern.Some? || p.patternHint.Some? { return Err(ConfigurationInvalid); }
      if p.choiceSetCode.None? { return Err(ConfigurationInvalid); }
      var i := 0;
      while i < |p.choices|
        invariant 0 <= i <= |p.choices|
        invariant ChoiceMap(p.choices[..i]) == Ok(choices)
      {
        assert p.choices[..i + 1][..i] == p.choices[..i];
        if p.choices[i].code in choices {
          ChoiceMapFails(p.choices, i + 1);
          assert ChoiceMap(p.choices).Err?;
          return Err(ConfigurationInvalid);
        }
        choices := choices[p.choices[i].code := p.choices[i].isActive];
        i := i + 1;
      }
      assert p.choices[..i] == p.choices;
    }
    return Ok(Prepared(p.code, p.valueType, p.required, p.patternHint, p.choiceSetCode, p.sortOrder, minValue,
      maxValue, pattern, choices));
  }

  lemma {:induction false} ChoiceMapFails(choices: seq<ChoiceDefinition>, n: nat)
    requires n <= |choices| && ChoiceMap(choices[..n]).Err?
    ensures ChoiceMap(choices) == Err(ConfigurationInvalid)
  {
    OnlyError(ChoiceMap(choices));
    if n == |choices| {
      assert choices[..n] == choices;
    } else {
      var m := |choices| - 1;
      assert choices[..m][..n] == choices[..n];
      ChoiceMapFails(choices[..m], n);
    }
  }

  /** The first `n` parameters are checked, distinct, and recorded in the dictionary. */
  ghost predicate PreparedSoFar(parameters: seq<ParameterDefinition>, n: nat, byCode: map<string, Prepared>,
      values: seq<Prepared>) {
    && n <= |parameters|
    && PrepareEach(parameters[..n]) == Ok(values)
    && |values| == n && (forall j :: 0 <= j < n ==> values[j].code == parameters[j].code)
    && DistinctKeys(values, PreparedCode)
    && (forall j :: 0 <= j < n ==> values[j].code in byCode && byCode[values[j].code] == values[j])
    && byCode.Keys == Codes(values)
  }

  lemma {:induction false} CodePosition(values: seq<Prepared>, code: string) returns (j: nat)
    requires code in Codes(values)
    ensures j < |values| && values[j].code == code
  {
    var n := |values| - 1;
    if values[n].code == code { j := n; } else { j := CodePosition(values[..n], code); }
  }

  lemma {:induction false} PreparedNone(parameters: seq<ParameterDefinition>)
    ensures PreparedSoFar(parameters, 0, map[], [])
  {
  }

  lemma {:induction false} PreparedStep(parameters: seq<ParameterDefinition>, n: nat, byCode: map<string, Prepared>,
      values: seq<Prepared>)
    requires PreparedSoFar(parameters, n, byCode, values) && n < |parameters|
    ensures parameters[n].code in byCode ==> PrepareAll(parameters).Err?
    ensures Prepare(parameters[n]).Err? ==> PrepareAll(parameters).Err?
    ensures parameters[n].code !in byCode && Prepare(parameters[n]).Ok? ==>
      var p := Prepare(parameters[n]).value;
      PreparedSoFar(parameters, n + 1, byCode[parameters[n].code := p], values + [p])
  {
    hide Prepare, SortBy;
    assert parameters[..n + 1][..n] == parameters[..n];
    if parameters[n].code in byCode {
      var j := CodePosition(values, parameters[n].code);
      assert CodeKey(parameters[j]) == CodeKey(parameters[n]);
    } else if Prepare(parameters[n]).Err? {
      if PrepareEach(parameters).Ok? { PrepareEachPrefix(parameters, n + 1); }
    } else {
      PreparedExtends(parameters, n, byCode, values, Prepare(parameters[n]).value);
    }
  }

  lemma {:induction false} PreparedExtends(parameters: seq<ParameterDefinition>, n: nat, byCode: map<string, Prepared>,
      values: seq<Prepared>, p: Prepared)
    requires PreparedSoFar(parameters, n, byCode, values) && n < |parameters|
    requires parameters[n].code !in byCode && Prepare(parameters[n]) == Ok(p)
    ensures PreparedSoFar(parameters, n + 1, byCode[parameters[n].code := p], values + [p])
  {
    PrepareCode(parameters[n]);
    hide Prepare, DistinctKeys;
    var byCode', values' := byCode[parameters[n].code := p], values + [p];
    assert parameters[..n + 1][..n] == parameters[..n];
    assert PrepareEach(parameters[..n + 1]) == Ok(values');
    assert p.code == parameters[n].code;
    assert values'[..n] == values;
    forall i | 0 <= i < n ensures PreparedCode(values[i]) != PreparedCode(p) {
      assert values[i].code in byCode;
    }
    DistinctAppend(values, p, PreparedCode);
  }

  lemma {:induction false} PreparedAll(parameters: seq<ParameterDefinition>, byCode: map<string, Prepared>,
      values: seq<Prepared>)
    requires PreparedSoFar(parameters, |parameters|, byCode, values)
    ensures PrepareAll(parameters) == Ok(SortBy(values, PreparedOrder))
    ensures Indexes(byCode, SortBy(values, PreparedOrder))
  {
    hide Prepare, SortBy, Find;
    assert parameters[..|parameters|] == parameters;
    forall a, b | 0 <= a < b < |parameters| ensures CodeKey(parameters[a]) != CodeKey(parameters[b]) {
      assert PreparedCode(values[a]) != PreparedCode(values[b]);
    }
    IndexesSorted(byCode, values);
  }

  method PrepareParameters(parameters: seq<ParameterDefinition>)
    returns (r: Result<(map<string, Prepared>, seq<Prepared>), ConfigurationError>)
    ensures r.Ok? <==> PrepareAll(parameters).Ok?
    ensures r.Ok? ==> r.value.1 == PrepareAll(parameters).value && Indexes(r.value.0, r.value.1)
  {
    hide Prepare, PrepareAll, PrepareEach, Indexes;
    PreparedNone(parameters);
    var preparedByCode: map<string, Prepared> := map[];
    var values: seq<Prepared> := [];
    var i := 0;
    while i < |parameters|
      invariant PreparedSoFar(parameters, i, preparedByCode, values)
    {
      PreparedStep(parameters, i, preparedByCode, values);
      if parameters[i].code in preparedByCode { return Err(ConfigurationInvalid); }
      var prepared := PrepareParameter(parameters[i]);
      if prepared.Err? { return Err(ConfigurationInvalid); }
      preparedByCode := preparedByCode[parameters[i].code := prepared.value];
      values := values + [prepared.value];
      i := i + 1;
    }
    PreparedAll(parameters, preparedByCode, values);
    return Ok((preparedByCode, SortBy(values, PreparedOrder)));
  }

  lemma {:induction false} IndexesSorted(byCode: map<string, Prepared>, values: seq<Prepared>)
    requires DistinctKeys(values, PreparedCode)
    requires forall j :: 0 <= j < |values| ==> values[j].code in byCode && byCode[values[j].code] == values[j]
    requires byCode.Keys == Codes(values)
    ensures Indexes(byCode, SortBy(values, PreparedOrder))
  {
    var ordered := SortBy(values, PreparedOrder);
    SortProps(values, PreparedOrder);
    DistinctKeysOfPermutation(values, ordered, PreparedCode);
    forall code
      ensures (code in byCode <==> Find(ordered, code).Some?)
        && (code in byCode ==> Find(ordered, code) == Some(byCode[code])) {
      FindMember(ordered, code);
      if Find(ordered, code).Some? {
        var i := IndexOf(values, Find(ordered, code).value);
        assert values[i].code in byCode;
      }
      if code in byCode {
        var j := CodePosition(values, code);
        assert values[j] in ordered;
        FindUnique(ordered, values[j]);
      }
    }
  }

  method EvaluateStandaloneCell(p: Prepared, l: LayerInput, c: ConditionInput, issues: IssueLog)
    modifies issues
    ensures issues.items == old(issues.items) + AsSeq(CellIssue(p, l, c))
  {
    var raw := Lookup(c.values, p.code);
    if raw.None? || raw.value == "" {
      if p.required { issues.Append(StandaloneIssue("required", Error, c, l, p.code, map[])); }
      return;
    }
    if p.valueType.Number? {
      var canonical := Decimals.Normalize(raw.value);
      if canonical.Err? {
        issues.Append(StandaloneIssue("number_malformed", Error, c, l, p.code, map[]));
        return;
      }
      var numeric := Decimals.Value(canonical.value);
      var details := map["max_value" := OptionalText(p.maxValue), "min_value" := OptionalText(p.minValue)];
      if p.minValue.Some? && numeric < Decimals.Value(p.minValue.value) {
        issues.Append(StandaloneIssue("range_min", Error, c, l, p.code, details));
      } else if p.maxValue.Some? && numeric > Decimals.Value(p.maxValue.value) {
        issues.Append(StandaloneIssue("range_max", Error, c, l, p.code, details));
      }
      return;
    }
    if p.valueType.Text? {
      if p.pattern.Some? && !Pattern.FullMatch(p.pattern.value, raw.value) {
        issues.Append(StandaloneIssue("pattern_mismatch", Error, c, l, p.code,
          map["pattern_hint" := OptionalText(p.patternHint)]));
      }
      return;
    }
    if raw.value !in p.choices {
      issues.Append(StandaloneIssue("choice_unknown", Error, c, l, p.code, map[]));
    } else if !p.choices[raw.value] {
      issues.Append(StandaloneIssue("choice_inactive", Warning, c, l, p.code, map[]));
    }
  }

  method EvaluateRow(ps: seq<Prepared>, l: LayerInput, c: ConditionInput, issues: IssueLog)
    modifies issues
    ensures issues.items == old(issues.items) + CellIssues(ps, l, c)
  {
    hide CellIssue;
    var k := 0;
    while k < |ps|
      invariant 0 <= k <= |ps|
      invariant issues.items == old(issues.items) + CellIssues(ps[..k], l, c)
    {
      TakeNext(ps, k);
      EvaluateStandaloneCell(ps[k], l, c, issues);
      k := k + 1;
    }
    assert ps[..k] == ps;
  }

  method EvaluateRows(ps: seq<Prepared>, l: LayerInput, cs: seq<ConditionInput>, issues: IssueLog)
    modifies issues
    ensures issues.items == old(issues.items) + ConditionIssues(ps, l, cs)
  {
    hide CellIssues;
    var j := 0;
    while j < |cs|
      invariant 0 <= j <= |cs|
      invariant issues.items == old(issues.items) + ConditionIssues(ps, l, cs[..j])
    {
      TakeNext(cs, j);
      EvaluateRow(ps, l, cs[j], issues);
      j := j + 1;
    }
    assert cs[..j] == cs;
  }

  method EvaluateStandalone(ps: seq<Prepared>, ls: seq<LayerInput>, issues: IssueLog)
    modifies issues
    ensures issues.items == old(issues.items) + StandaloneIssues(ps, ls)
  {
    hide ConditionIssues, OrderConditions;
    var i := 0;
    while i < |ls|
      invariant 0 <= i <= |ls|
      invariant issues.items == old(issues.items) + StandaloneIssues(ps, ls[..i])
    {
      TakeNext(ls, i);
      EvaluateRows(ps, ls[i], ls[i].conditions, issues);
      i := i + 1;
    }
    assert ls[..i] == ls;
  }

  method EvaluateRequiredIf(rule: Rule, preparedByCode: map<string, Prepared>, ghost ps: seq<Prepared>,
      ls: seq<LayerInput>, issues: IssueLog)
    returns (r: Result<(), ConfigurationError>)
    requires rule.spec.RequiredIf? && Indexes(preparedByCode, ps)
    modifies issues
    ensures r.Ok? <==> ResolveRule(rule, ps).Ok?
    ensures issues.items == old(issues.items) + if r.Ok? then RuleIssues(ResolveRule(rule, ps).value, ls, |ls|) else []
  {
    hide Find, CanonicalTyped, AppliesToLayer, RuleIssuesIn;
    var spec := rule.spec;
    if spec.schemaVersion != 1 { return Err(ConfigurationInvalid); }
    if spec.whenCode !in preparedByCode { return Err(ConfigurationInvalid); }
    var when := preparedByCode[spec.whenCode];
    if spec.requiredCode !in preparedByCode { return Err(ConfigurationInvalid); }
    var literal := CanonicalTyped(when.valueType, Some(spec.equals));
    if literal.Err? || literal.value.None? { return Err(ConfigurationInvalid); }
    var equals := literal.value.value;
    if when.valueType.Choice? && equals !in when.choices { return Err(ConfigurationInvalid); }
    ghost var k := RequiredCheck(rule, when.valueType, equals);
    assert ResolveRule(rule, ps) == Ok(k);

    var i := 0;
    while i < |ls|
      invariant 0 <= i <= |ls|
      invariant issues.items == old(issues.items) + RuleIssues(k, ls, i)
    {
      if AppliesToLayer(rule.scope, ls[i]) {
        RequiredIfRows(rule, when.valueType, equals, ls, i, issues);
      } else {
        OutOfScope(k, ls, i, ls[i].conditions);
      }
      i := i + 1;
    }
    return Ok(());
  }

  method RequiredIfRows(rule: Rule, t: ValueType, equals: string, ls: seq<LayerInput>, i: nat, issues: IssueLog)
    requires i < |ls| && rule.spec.RequiredIf? && AppliesToLayer(rule.scope, ls[i])
    modifies issues
    ensures issues.items == old(issues.items) + RuleIssuesIn(RequiredCheck(rule, t, equals), ls, i, ls[i].conditions)
  {
    hide StoredTyped, AppliesToLayer, RelationIssue;
    var spec, cs := rule.spec, ls[i].conditions;
    ghost var k := RequiredCheck(rule, t, equals);
    var j := 0;
    while j < |cs|
      invariant 0 <= j <= |cs|
      invariant issues.items == old(issues.items) + RuleIssuesIn(k, ls, i, cs[..j])
    {
      TakeNext(cs, j);
      var c := cs[j];
      j := j + 1;
      var current := StoredTyped(t, Lookup(c.values, spec.whenCode));
      if current != Some(equals) { continue; }
      var target := Lookup(c.values, spec.requiredCode);
      if target.Some? && target.value != "" { continue; }
      issues.Append(RelationIssue("required_if", rule, c, ls[i], spec.requiredCode,
                                  map["equals" := TextValue(equals),
                                      "required_parameter_code" := TextValue(spec.requiredCode),
                                      "when_parameter_code" := TextValue(spec.whenCode)]));
    }
    assert cs[..j] == cs;
  }

  lemma {:induction false} OutOfScope(k: Check, ls: seq<LayerInput>, rank: nat, cs: seq<ConditionInput>)
    requires rank < |ls| && WellFormedCheck(k) && !AppliesToLayer(k.rule.scope, ls[rank])
    ensures RuleIssuesIn(k, ls, rank, cs) == []
  {
    if |cs| > 0 { OutOfScope(k, ls, rank, cs[..|cs| - 1]); }
  }

  /** The one-pass sweep: candidates of earlier layers are collected as the sweep moves down. */
  method EvaluatePriorPor(rule: Rule, preparedByCode: map<string, Prepared>, ghost ps: seq<Prepared>,
      ls: seq<LayerInput>, issues: IssueLog)
    returns (r: Result<(), ConfigurationError>)
    requires rule.spec.PriorPor? && Indexes(preparedByCode, ps)
    modifies issues
    ensures r.Ok? <==> ResolveRule(rule, ps).Ok?
    ensures issues.items == old(issues.items) + if r.Ok? then RuleIssues(ResolveRule(rule, ps).value, ls, |ls|) else []
  {
    hide Find, StoredTyped, AppliesToLayer, RuleIssuesIn, CarriedBefore;
    CarriedNone(ls, rule.spec.candidateCode);
    var spec := rule.spec;
    if spec.schemaVersion != 1 { return Err(ConfigurationInvalid); }
    if spec.sourceCode !in preparedByCode || spec.candidateCode !in preparedByCode { return Err(ConfigurationInvalid); }
    var source, candidate := preparedByCode[spec.sourceCode], preparedByCode[spec.candidateCode];
    if source.valueType != candidate.valueType { return Err(ConfigurationInvalid); }
    if source.valueType.Choice? && source.choiceSetCode != candidate.choiceSetCode { return Err(ConfigurationInvalid); }
    ghost var k := PriorCheck(rule, source.valueType);
    assert ResolveRule(rule, ps) == Ok(k);

    var priorCandidates: set<string> := {};
    var searchedLayerCount := 0;
    var i := 0;
    while i < |ls|
      invariant 0 <= i <= |ls| && searchedLayerCount == i
      invariant forall v :: v in priorCandidates <==> CarriedBefore(ls, i, candidate.valueType, spec.candidateCode, v)
      invariant issues.items == old(issues.items) + RuleIssues(k, ls, i)
    {
      if AppliesToLayer(rule.scope, ls[i]) {
        PriorPorRows(rule, source.valueType, ls, i, priorCandidates, searchedLayerCount, issues);
      } else {
        OutOfScope(k, ls, i, ls[i].conditions);
      }
      var por := FirstPor(ls[i].conditions);
      ghost var before := priorCandidates;
      if por.Some? {
        var currentCandidate := StoredTyped(candidate.valueType, Lookup(por.value.values, spec.candidateCode));
        if currentCandidate.Some? { priorCandidates := priorCandidates + {currentCandidate.value}; }
      }
      CarriedStep(ls, i, candidate.valueType, spec.candidateCode, before, priorCandidates);
      searchedLayerCount := searchedLayerCount + 1;
      i := i + 1;
    }
    return Ok(());
  }

  lemma {:induction false} CarriedNone(ls: seq<LayerInput>, candidateCode: string)
    ensures forall t, v :: !CarriedBefore(ls, 0, t, candidateCode, v)
  {
  }

  lemma {:induction false} CarriedStep(ls: seq<LayerInput>, i: nat, t: ValueType, candidateCode: string,
      before: set<string>, after: set<string>)
    requires i < |ls|
    requires forall v :: v in before <==> CarriedBefore(ls, i, t, candidateCode, v)
    requires after == match PorValue(ls[i], t, candidateCode) case None => before case Some(v) => before + {v}
    ensures forall v :: v in after <==> CarriedBefore(ls, i + 1, t, candidateCode, v)
  {
    forall v ensures v in after <==> CarriedBefore(ls, i + 1, t, candidateCode, v) {
      if v in before {
        var j :| 0 <= j < i && PorValue(ls[j], t, candidateCode) == Some(v);
      }
      if CarriedBefore(ls, i + 1, t, candidateCode, v) {
        var j :| 0 <= j < i + 1 && PorValue(ls[j], t, candidateCode) == Some(v);
        assert j < i ==> CarriedBefore(ls, i, t, candidateCode, v);
      }
    }
  }

  method PriorPorRows(rule: Rule, t: ValueType, ls: seq<LayerInput>, i: nat, priorCandidates: set<string>,
      searchedLayerCount: nat, issues: IssueLog)
    requires i < |ls| && rule.spec.PriorPor? && AppliesToLayer(rule.scope, ls[i]) && searchedLayerCount == i
    requires forall v :: v in priorCandidates <==> CarriedBefore(ls, i, t, rule.spec.candidateCode, v)
    modifies issues
    ensures issues.items == old(issues.items) + RuleIssuesIn(PriorCheck(rule, t), ls, i, ls[i].conditions)
  {
    hide StoredTyped, AppliesToLayer, RelationIssue, CarriedBefore;
    var spec, cs := rule.spec, ls[i].conditions;
    ghost var k := PriorCheck(rule, t);
    var j := 0;
    while j < |cs|
      invariant 0 <= j <= |cs|
      invariant issues.items == old(issues.items) + RuleIssuesIn(k, ls, i, cs[..j])
    {
      TakeNext(cs, j);
      var current := StoredTyped(t, Lookup(cs[j].values, spec.sourceCode));
      if current.Some? && current.value !in priorCandidates {
        issues.Append(RelationIssue("value_not_found_in_prior_por", rule, cs[j], ls[i], spec.sourceCode,
                                    map["candidate_parameter_code" := TextValue(spec.candidateCode),
                                        "searched_layer_count" := IntValue(searchedLayerCount)]));
      }
      j := j + 1;
    }
    assert cs[..j] == cs;
  }

  lemma {:induction false} RelationPrefixFails(context: ProjectContext, ps: seq<Prepared>, ls: seq<LayerInput>,
      rules: seq<Rule>, n: nat)
    requires n <= |rules| && RelationIssues(context, ps, ls, rules[..n]).Err?
    ensures RelationIssues(context, ps, ls, rules).Err?
  {
    if n == |rules| {
      assert rules[..n] == rules;
    } else {
      var m := |rules| - 1;
      assert rules[..m][..n] == rules[..n];
      RelationPrefixFails(context, ps, ls, rules[..m], n);
    }
  }

  /** evaluate_project: the loops compute the specification, in value and in failure. */
  method EvaluateProject(context: ProjectContext, parameters: seq<ParameterDefinition>, layers: seq<LayerInput>,
      rules: seq<Rule>)
    returns (r: Result<seq<Issue>, ConfigurationError>)
    ensures r == Evaluate(context, parameters, layers, rules)
  {
    hide PrepareAll, RelationIssues, StandaloneIssues, SortBy, OrderEach, IssueKey;
    var preparation := PrepareParameters(parameters);
    if preparation.Err? {
      OnlyError(PrepareAll(parameters));
      return Err(ConfigurationInvalid);
    }
    var (preparedByCode, ps) := preparation.value;

    var distinctLayers := HasDistinctKeys(layers, LayerKeyOf);
    if !distinctLayers { return Err(ConfigurationInvalid); }
    var ls := OrderLayers(layers);

    var issues := new IssueLog();
    EvaluateStandalone(ps, ls, issues);
    assert issues.items == StandaloneIssues(ps, ls);
    var relation := EvaluateRules(context, preparedByCode, ps, ls, rules, issues);
    if relation.Err? {
      OnlyError(EvaluateOrdered(context, ps, ls, SortBy(rules, RuleOrder)));
      return Err(ConfigurationInvalid);
    }
    assert issues.items == StandaloneIssues(ps, ls) + RelationIssues(context, ps, ls, SortBy(rules, RuleOrder)).value;
    issues.items := SortBy(issues.items, IssueOrder(ls, ps));
    return Ok(issues.items);
  }

  /** The first `n` rules in order have distinct codes, recorded in `seen`. */
  ghost predicate SeenSoFar(ordered: seq<Rule>, n: nat, seen: set<string>) {
    && n <= |ordered|
    && seen == RuleCodes(ordered[..n])
    && (forall a, b :: 0 <= a < b < n ==> RuleCodeKey(ordered[a]) != RuleCodeKey(ordered[b]))
  }

  function RuleCodes(rules: seq<Rule>): set<string> {
    if |rules| == 0 then {} else RuleCodes(rules[..|rules| - 1]) + {rules[|rules| - 1].code}
  }

  lemma {:induction false} RuleCodesMember(rules: seq<Rule>, code: string)
    ensures code in RuleCodes(rules) <==> exists j :: 0 <= j < |rules| && rules[j].code == code
  {
    var n := |rules| - 1;
    if n >= 0 {
      RuleCodesMember(rules[..n], code);
      if code in RuleCodes(rules[..n]) {
        var j :| 0 <= j < n && rules[..n][j].code == code;
        assert rules[j].code == code;
      }
      if j :| 0 <= j < |rules| && rules[j].code == code {
        assert j < n ==> rules[..n][j].code == code;
      }
    }
  }

  lemma {:induction false} SeenNone(ordered: seq<Rule>)
    ensures SeenSoFar(ordered, 0, {})
  {
  }

  lemma {:induction false} SeenStep(rules: seq<Rule>, ordered: seq<Rule>, n: nat, seen: set<string>)
    requires SeenSoFar(ordered, n, seen) && multiset(rules) == multiset(ordered)
    ensures n < |ordered| && ordered[n].code in seen ==> !DistinctKeys(rules, RuleCodeKey)
    ensures n < |ordered| && ordered[n].code !in seen ==> SeenSoFar(ordered, n + 1, seen + {ordered[n].code})
    ensures n == |ordered| ==> DistinctKeys(rules, RuleCodeKey)
  {
    if n < |ordered| {
      RuleCodesMember(ordered[..n], ordered[n].code);
      TakeNext(ordered, n);
      assert ordered[n].code !in seen ==> forall j :: 0 <= j < n ==> ordered[..n][j].code != ordered[n].code;
    }
    if n == |ordered| {
      DistinctKeysOfPermutation(ordered, rules, RuleCodeKey);
    } else if ordered[n].code in seen {
      var j :| 0 <= j < |ordered[..n]| && ordered[..n][j].code == ordered[n].code;
      assert RuleCodeKey(ordered[j]) == RuleCodeKey(ordered[n]);
      if DistinctKeys(rules, RuleCodeKey) { DistinctKeysOfPermutation(rules, ordered, RuleCodeKey); }
    }
  }

  method EvaluateRules(context: ProjectContext, preparedByCode: map<string, Prepared>, ghost ps: seq<Prepared>,
      ls: seq<LayerInput>, rules: seq<Rule>, issues: IssueLog)
    returns (r: Result<(), ConfigurationError>)
    requires Indexes(preparedByCode, ps)
    modifies issues
    ensures r.Ok? <==> DistinctKeys(rules, RuleCodeKey) && RelationIssues(context, ps, ls, SortBy(rules, RuleOrder)).Ok?
    ensures r.Ok? ==>
      issues.items == old(issues.items) + RelationIssues(context, ps, ls, SortBy(rules, RuleOrder)).value
  {
    hide ResolveRule, RuleIssues, SortBy, AppliesToProject, SeenSoFar;
    var ordered := SortBy(rules, RuleOrder);
    SortProps(rules, RuleOrder);
    SeenNone(ordered);
    var seenRuleCodes: set<string> := {};
    var i := 0;
    while i < |ordered|
      invariant i <= |ordered| && SeenSoFar(ordered, i, seenRuleCodes)
      invariant RelationIssues(context, ps, ls, ordered[..i]).Ok?
      invariant issues.items == old(issues.items) + RelationIssues(context, ps, ls, ordered[..i]).value
    {
      var rule := ordered[i];
      TakeNext(ordered, i);
      SeenStep(rules, ordered, i, seenRuleCodes);
      if rule.code in seenRuleCodes { return Err(ConfigurationInvalid); }
      seenRuleCodes := seenRuleCodes + {rule.code};
      if AppliesToProject(rule.scope, context) {
        var outcome := EvaluateRule(rule, preparedByCode, ps, ls, issues);
        if outcome.Err? {
          RelationPrefixFails(context, ps, ls, ordered, i + 1);
          return Err(ConfigurationInvalid);
        }
      }
      i := i + 1;
    }
    SeenStep(rules, ordered, i, seenRuleCodes);
    assert ordered[..i] == ordered;
    return Ok(());
  }

  method EvaluateRule(rule: Rule, preparedByCode: map<string, Prepared>, ghost ps: seq<Prepared>, ls: seq<LayerInput>,
      issues: IssueLog)
    returns (r: Result<(), ConfigurationError>)
    requires Indexes(preparedByCode, ps)
    modifies issues
    ensures r.Ok? <==> ResolveRule(rule, ps).Ok?
    ensures issues.items == old(issues.items) + if r.Ok? then RuleIssues(ResolveRule(rule, ps).value, ls, |ls|) else []
  {
    if rule.spec.RequiredIf? {
      r := EvaluateRequiredIf(rule, preparedByCode, ps, ls, issues);
    } else {
      r := EvaluatePriorPor(rule, preparedByCode, ps, ls, issues);
    }
  }

  method HasDistinctKeys<T>(xs: seq<T>, key: T -> Key) returns (distinct: bool)
    ensures distinct <==> DistinctKeys(xs, key)
  {
    var seen: set<Key> := {};
    for i := 0 to |xs|
      invariant forall k :: k in seen <==> exists j :: 0 <= j < i && key(xs[j]) == k
      invariant forall a, b :: 0 <= a < b < i ==> key(xs[a]) != key(xs[b])
    {
      if key(xs[i]) in seen { return false; }
      seen := seen + {key(xs[i])};
    }
    return true;
  }
}
