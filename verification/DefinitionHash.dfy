/**
 * The canonical payload behind the validation basis hash (backend/app/domain/validation/hashing.py).
 *
 * The program hashes a JSON document whose keys are fixed and sorted; `Payload` is that
 * document's content. The digest itself is treated as injective, so equal hashes mean equal payloads.
 */
module DefinitionHash {
  import opened Results
  import opened Ordering
  import opened Validation
  import opened ValidationLaws
  import opened ValidationOrder

  datatype ParameterPayload = ParameterPayload(
    choiceSetCode: Option<string>, choices: seq<ChoiceDefinition>, code: string, displayName: string,
    maxValue: Option<string>, minValue: Option<string>, pattern: Option<string>, patternHint: Option<string>,
    required: bool, sortOrder: int, valueType: ValueType)

  datatype RulePayload = RulePayload(code: string, name: string, scope: Scope, severity: Severity, spec: Spec,
      version: int)

  /** The choice set versions are a list sorted by distinct code, that is, a map. */
  datatype Payload = Payload(choiceSetVersions: map<string, int>, parameters: seq<ParameterPayload>,
      rules: seq<RulePayload>)

  function CanonicalScope(s: Scope): Scope {
    Scope(SortBy(s.lineIds, TextKey), SortBy(s.processIds, TextKey), SortBy(s.layerIds, TextKey),
          SortBy(s.stepSeqs, TextKey), SortBy(s.eqpTypes, TextKey), SortBy(s.areaNames, TextKey))
  }

  function CanonicalParameter(p: ParameterDefinition): Result<ParameterPayload, ConfigurationError> {
    var hi :- CanonicalBound(p.maxValue);
    var lo :- CanonicalBound(p.minValue);
    Ok(ParameterPayload(p.choiceSetCode, SortBy(p.choices, ChoiceKey), p.code, p.displayName, hi, lo,
                        p.pattern, p.patternHint, p.required, p.sortOrder, p.valueType))
  }

  function FindParameter(ps: seq<ParameterDefinition>, code: string): Option<ParameterDefinition> {
    if |ps| == 0 then None else if ps[0].code == code then Some(ps[0]) else FindParameter(ps[1..], code)
  }

  predicate HasChoice(p: ParameterDefinition, code: string) {
    exists i :: 0 <= i < |p.choices| && p.choices[i].code == code
  }

  function CanonicalSpec(spec: Spec, ps: seq<ParameterDefinition>): Result<Spec, ConfigurationError> {
    match spec
    case RequiredIf(whenCode, literal, requiredCode, schemaVersion) =>
      var when, target := FindParameter(ps, whenCode), FindParameter(ps, requiredCode);
      if when.None? || target.None? || schemaVersion != 1 then Err(ConfigurationInvalid)
      else
        var equals :- CanonicalTyped(when.value.valueType, Some(literal));
        if equals.None? then Err(ConfigurationInvalid)
        else if when.value.valueType.Choice? && !HasChoice(when.value, equals.value) then Err(ConfigurationInvalid)
        else Ok(RequiredIf(whenCode, equals.value, requiredCode, schemaVersion))
    case PriorPor(sourceCode, candidateCode, schemaVersion) =>
      var source, candidate := FindParameter(ps, sourceCode), FindParameter(ps, candidateCode);
      if source.None? || candidate.None? || schemaVersion != 1 then Err(ConfigurationInvalid)
      else if source.value.valueType != candidate.value.valueType then Err(ConfigurationInvalid)
      else if source.value.valueType.Choice? && source.value.choiceSetCode != candidate.value.choiceSetCode
        then Err(ConfigurationInvalid)
      else Ok(spec)
  }

  function CanonicalRule(r: Rule, ps: seq<ParameterDefinition>): Result<RulePayload, ConfigurationError> {
    var spec :- CanonicalSpec(r.spec, ps);
    Ok(RulePayload(r.code, r.name, CanonicalScope(r.scope), r.severity, spec, r.version))
  }

  function EachParameter(ps: seq<ParameterDefinition>): Result<seq<ParameterPayload>, ConfigurationError> {
    if |ps| == 0 then Ok([])
    else
      var first :- CanonicalParameter(ps[0]);
      var rest :- EachParameter(ps[1..]);
      Ok([first] + rest)
  }

  function EachRule(rules: seq<Rule>, ps: seq<ParameterDefinition>): Result<seq<RulePayload>, ConfigurationError> {
    if |rules| == 0 then Ok([])
    else
      var first :- CanonicalRule(rules[0], ps);
      var rest :- EachRule(rules[1..], ps);
      Ok([first] + rest)
  }

  predicate ChoiceSetsBound(ps: seq<ParameterDefinition>) {
    forall p :: p in ps && p.valueType.Choice? ==> p.choiceSetCode.Some?
  }

  predicate References(ps: seq<ParameterDefinition>, code: string) {
    exists p :: p in ps && p.valueType.Choice? && p.choiceSetCode == Some(code)
  }

  predicate VersionsKnown(ps: seq<ParameterDefinition>, versions: map<string, int>) {
    forall p :: p in ps && p.valueType.Choice? && p.choiceSetCode.Some? ==>
      p.choiceSetCode.value in versions && versions[p.choiceSetCode.value] > 0
  }

  /** The payload of validation_basis_hash, or its refusal. */
  function CanonicalPayload(ps: seq<ParameterDefinition>, versions: map<string, int>,
      rules: seq<Rule>): Result<Payload, ConfigurationError> {
    if !DistinctKeys(ps, CodeKey) || !DistinctKeys(rules, RuleCodeKey) then Err(ConfigurationInvalid)
    else if !ChoiceSetsBound(ps) || !VersionsKnown(ps, versions) then Err(ConfigurationInvalid)
    else
      var parameters :- EachParameter(SortBy(ps, CodeKey));
      var rulePayloads :- EachRule(SortBy(rules, RuleOrder), ps);
      Ok(Payload(map code | code in versions && References(ps, code) :: versions[code], parameters, rulePayloads))
  }

  // ---------------------------------------------------------------- lookups

  lemma {:induction false} FindParameterMember(ps: seq<ParameterDefinition>, code: string)
    ensures FindParameter(ps, code).Some? ==>
      FindParameter(ps, code).value in ps && FindParameter(ps, code).value.code == code
    ensures FindParameter(ps, code).None? ==> forall p :: p in ps ==> p.code != code
  {
    if |ps| > 0 && ps[0].code != code { FindParameterMember(ps[1..], code); }
  }

  lemma {:induction false} FindParameterUnique(ps: seq<ParameterDefinition>, p: ParameterDefinition)
    requires DistinctKeys(ps, CodeKey) && p in ps
    ensures FindParameter(ps, p.code) == Some(p)
  {
    FindParameterMember(ps, p.code);
    var q := FindParameter(ps, p.code).value;
    var i, j := IndexOf(ps, p), IndexOf(ps, q);
    assert CodeKey(ps[i]) == CodeKey(ps[j]);
  }

  /** A prepared parameter comes from the definition with its code. */
  lemma {:induction false} PreparedOrigin(ps: seq<ParameterDefinition>, code: string)
    requires PrepareAll(ps).Ok?
    ensures var q := Find(PrepareAll(ps).value, code);
      && (q.Some? <==> FindParameter(ps, code).Some?)
      && (q.Some? ==> Prepare(FindParameter(ps, code).value) == Ok(q.value))
  {
    hide Prepare, SortBy;
    var each, sorted := PrepareEach(ps).value, PrepareAll(ps).value;
    SortProps(each, PreparedOrder);
    FindMember(sorted, code);
    FindParameterMember(ps, code);
    var q := Find(sorted, code);
    if q.Some? {
      assert q.value in each;
      PrepareEachMembers(ps, q.value);
      var p :| p in ps && Prepare(p) == Ok(q.value);
      PrepareCode(p);
      FindParameterUnique(ps, p);
    } else if FindParameter(ps, code).Some? {
      var p := FindParameter(ps, code).value;
      PrepareEachAccepts(ps);
      PrepareCode(p);
      PrepareEachMembers(ps, Prepare(p).value);
    }
  }

  lemma {:induction false} PrepareType(p: ParameterDefinition)
    ensures Prepare(p).Ok? ==> Prepare(p).value.valueType == p.valueType
  {
    hide ChoiceMap, CanonicalBound;
  }

  // ---------------------------------------------------------------- equal payloads, equal results

  lemma {:induction false} EachParameterAt(ps: seq<ParameterDefinition>, i: nat)
    requires EachParameter(ps).Ok? && i < |ps|
    ensures |EachParameter(ps).value| == |ps| && CanonicalParameter(ps[i]) == Ok(EachParameter(ps).value[i])
  {
    hide CanonicalParameter;
    if i > 0 { EachParameterAt(ps[1..], i - 1); } else if |ps| > 1 { EachParameterAt(ps[1..], 0); }
  }

  lemma {:induction false} EachParameterLength(ps: seq<ParameterDefinition>)
    requires EachParameter(ps).Ok?
    ensures |EachParameter(ps).value| == |ps|
  {
    hide CanonicalParameter;
    if |ps| > 0 { EachParameterLength(ps[1..]); }
  }

  lemma {:induction false} EachRuleAt(rules: seq<Rule>, ps: seq<ParameterDefinition>, i: nat)
    requires EachRule(rules, ps).Ok? && i < |rules|
    ensures |EachRule(rules, ps).value| == |rules| && CanonicalRule(rules[i], ps) == Ok(EachRule(rules, ps).value[i])
  {
    hide CanonicalRule;
    if i > 0 { EachRuleAt(rules[1..], ps, i - 1); } else if |rules| > 1 { EachRuleAt(rules[1..], ps, 0); }
  }

  lemma {:induction false} EachRuleLength(rules: seq<Rule>, ps: seq<ParameterDefinition>)
    requires EachRule(rules, ps).Ok?
    ensures |EachRule(rules, ps).value| == |rules|
  {
    hide CanonicalRule;
    if |rules| > 0 { EachRuleLength(rules[1..], ps); }
  }

  lemma {:induction false} SortedEqualMembers<T>(a: seq<T>, b: seq<T>, key: T -> Key)
    requires SortBy(a, key) == SortBy(b, key)
    ensures multiset(a) == multiset(b)
  {
    SortProps(a, key);
    SortProps(b, key);
  }

  /** What `Prepare` reads of a definition. */
  lemma {:induction false} PrepareCongruence(p: ParameterDefinition, q: ParameterDefinition)
    requires p.code == q.code && p.valueType == q.valueType && p.required == q.required && p.sortOrder == q.sortOrder
    requires p.pattern == q.pattern && p.patternHint == q.patternHint && p.choiceSetCode == q.choiceSetCode
    requires CanonicalBound(p.minValue) == CanonicalBound(q.minValue)
    requires CanonicalBound(p.maxValue) == CanonicalBound(q.maxValue)
    requires (p.minValue.Some? <==> q.minValue.Some?) && (p.maxValue.Some? <==> q.maxValue.Some?)
    requires |p.choices| == |q.choices| && ChoiceMap(p.choices) == ChoiceMap(q.choices)
    ensures Prepare(p) == Prepare(q)
  {
    hide ChoiceMap, CanonicalBound;
    match p.valueType
    case Number =>
    case Text =>
    case Choice =>
  }

  lemma {:induction false} BoundPresence(a: Option<string>, b: Option<string>)
    requires CanonicalBound(a).Ok? && CanonicalBound(a) == CanonicalBound(b)
    ensures a.Some? <==> b.Some?
  {
  }

  lemma {:induction false} SameParameterPayload(p: ParameterDefinition, q: ParameterDefinition)
    requires CanonicalParameter(p).Ok? && CanonicalParameter(p) == CanonicalParameter(q)
    ensures Prepare(p) == Prepare(q) && p.code == q.code
  {
    hide ChoiceMap, SortBy, Prepare, CanonicalBound;
    SortedEqualMembers(p.choices, q.choices, ChoiceKey);
    SameMembers(p.choices, q.choices);
    ChoiceMapRearranged(p.choices, q.choices);
    BoundPresence(p.minValue, q.minValue);
    BoundPresence(p.maxValue, q.maxValue);
    PrepareCongruence(p, q);
  }

  lemma {:induction false} CanonicalScopeSame(a: Scope, b: Scope)
    requires CanonicalScope(a) == CanonicalScope(b)
    ensures SameScope(a, b)
  {
    hide SortBy, SameFilter;
    SortedEqualMembers(a.lineIds, b.lineIds, TextKey);
    SortedEqualMembers(a.processIds, b.processIds, TextKey);
    SortedEqualMembers(a.layerIds, b.layerIds, TextKey);
    SortedEqualMembers(a.stepSeqs, b.stepSeqs, TextKey);
    SortedEqualMembers(a.eqpTypes, b.eqpTypes, TextKey);
    SortedEqualMembers(a.areaNames, b.areaNames, TextKey);
    SameFilterOfPermutation(a.lineIds, b.lineIds);
    SameFilterOfPermutation(a.processIds, b.processIds);
    SameFilterOfPermutation(a.layerIds, b.layerIds);
    SameFilterOfPermutation(a.stepSeqs, b.stepSeqs);
    SameFilterOfPermutation(a.eqpTypes, b.eqpTypes);
    SameFilterOfPermutation(a.areaNames, b.areaNames);
  }

  /** The literal evaluation compares with is the canonical literal of the payload. */
  lemma {:induction false} LiteralOfPayload(spec: Spec, ps: seq<ParameterDefinition>)
    requires PrepareAll(ps).Ok? && CanonicalSpec(spec, ps).Ok?
    ensures Literal(spec, PrepareAll(ps).value) == if spec.RequiredIf?
      then Ok(Some(CanonicalSpec(spec, ps).value.equals)) else Ok(None)
  {
    hide PrepareAll, Prepare, CanonicalTyped;
    if spec.RequiredIf? {
      PreparedOrigin(ps, spec.whenCode);
      PrepareType(FindParameter(ps, spec.whenCode).value);
    }
  }

  lemma {:induction false} SameRulePayload(r: Rule, s: Rule, ps: seq<ParameterDefinition>, qs: seq<ParameterDefinition>)
    requires CanonicalRule(r, ps).Ok? && CanonicalRule(r, ps) == CanonicalRule(s, qs)
    requires PrepareAll(ps).Ok? && PrepareAll(ps) == PrepareAll(qs)
    ensures SameRule(r, s, PrepareAll(ps).value)
  {
    hide PrepareAll, Find, CanonicalScope, SameScope, CanonicalTyped, Literal, FindParameter;
    CanonicalScopeSame(r.scope, s.scope);
    LiteralOfPayload(r.spec, ps);
    LiteralOfPayload(s.spec, qs);
  }

  lemma {:induction false} SamePayloadParameters(ps: seq<ParameterDefinition>, qs: seq<ParameterDefinition>)
    requires EachParameter(SortBy(ps, CodeKey)).Ok?
    requires EachParameter(SortBy(ps, CodeKey)) == EachParameter(SortBy(qs, CodeKey))
    ensures PrepareAll(ps) == PrepareAll(qs)
  {
    hide SortBy, EachParameter, PrepareAll, Prepare, CanonicalParameter;
    var a, b := SortBy(ps, CodeKey), SortBy(qs, CodeKey);
    SortProps(ps, CodeKey);
    SortProps(qs, CodeKey);
    EachParameterLength(a);
    EachParameterLength(b);
    forall i | 0 <= i < |a| ensures Prepare(a[i]) == Prepare(b[i]) && a[i].code == b[i].code {
      EachParameterAt(a, i);
      EachParameterAt(b, i);
      SameParameterPayload(a[i], b[i]);
    }
    PrepareAllPointwise(a, b);
    PrepareAllShuffled(ps, a);
    PrepareAllShuffled(qs, b);
  }

  /** Two configurations with equal payloads give identical results on every project. */
  lemma {:induction false} EqualPayloadsSameResults(ps: seq<ParameterDefinition>, versions: map<string, int>,
      rules: seq<Rule>,
      ps': seq<ParameterDefinition>, versions': map<string, int>, rules': seq<Rule>,
      context: ProjectContext, layers: seq<LayerInput>)
    requires CanonicalPayload(ps, versions, rules).Ok?
    requires CanonicalPayload(ps, versions, rules) == CanonicalPayload(ps', versions', rules')
    ensures Evaluate(context, ps, layers, rules) == Evaluate(context, ps', layers, rules')
  {
    hide SortBy, EachParameter, EachRule, PrepareAll, SameScope, SameSpec, DistinctKeys, EvaluateOrdered, CanonicalRule;
    var a, b := SortBy(rules, RuleOrder), SortBy(rules', RuleOrder);
    SamePayloadParameters(ps, ps');
    EachRuleLength(a, ps);
    EachRuleLength(b, ps');
    if PrepareAll(ps).Ok? {
      forall i | 0 <= i < |a| ensures SameRuleFor(context, a[i], b[i], PrepareAll(ps).value) {
        EachRuleAt(a, ps, i);
        EachRuleAt(b, ps', i);
        SameRulePayload(a[i], b[i], ps, ps');
      }
    }
    SortProps(rules, RuleOrder);
    SortProps(rules', RuleOrder);
    EvaluateShuffledRules(context, ps, layers, rules, a);
    EvaluateCongruence(context, ps, ps', layers, a, b);
    EvaluateShuffledRules(context, ps', layers, rules', b);
  }

  // ---------------------------------------------------------------- the payload ignores order

  /** Two choices of a parameter with one code are the same choice. */
  ghost predicate ConsistentChoices(p: ParameterDefinition) { KeysIdentify(p.choices, ChoiceKey) }

  /**
   * Listing the choices in another order keeps the payload for exactly the parameters whose
   * choices agree on every repeated code.
   */
  lemma {:induction false} ChoiceOrderIrrelevant(p: ParameterDefinition)
    ensures ConsistentChoices(p) <==> forall cs :: multiset(cs) == multiset(p.choices) ==>
      SortBy(cs, ChoiceKey) == SortBy(p.choices, ChoiceKey)
  {
    if ConsistentChoices(p) {
      forall cs | multiset(cs) == multiset(p.choices) ensures SortBy(cs, ChoiceKey) == SortBy(p.choices, ChoiceKey) {
        SortShuffled(p.choices, cs, ChoiceKey);
      }
    } else {
      var i, j :| 0 <= i < |p.choices| && 0 <= j < |p.choices| && ChoiceKey(p.choices[i]) == ChoiceKey(p.choices[j])
        && p.choices[i] != p.choices[j];
      assert ChoiceKey(p.choices[i])[0] == ChoiceKey(p.choices[j])[0];
      var other := TwoOrders(p.choices, if i < j then i else j, if i < j then j else i);
    }
  }

  /** Moving one of two same-code choices to the front changes the stable sort. */
  lemma {:induction false} TwoOrders(cs: seq<ChoiceDefinition>, i: nat, j: nat) returns (other: seq<ChoiceDefinition>)
    requires i < j < |cs| && cs[i].code == cs[j].code && cs[i] != cs[j]
    ensures multiset(other) == multiset(cs) && SortBy(other, ChoiceKey) != SortBy(cs, ChoiceKey)
  {
    hide SortBy, ChoiceKey;
    var rest := cs[..i] + cs[i + 1..j] + cs[j + 1..];
    var ds, es := [cs[i], cs[j]] + rest, [cs[j], cs[i]] + rest;
    Extract(cs, i, j);
    FrontPair(cs[i], cs[j], rest);
    FrontPair(cs[j], cs[i], rest);
    other := if SortBy(ds, ChoiceKey) != SortBy(cs, ChoiceKey) then ds else es;
  }

  lemma {:induction false} Extract(cs: seq<ChoiceDefinition>, i: nat, j: nat)
    requires i < j < |cs|
    ensures var rest := cs[..i] + cs[i + 1..j] + cs[j + 1..];
      multiset([cs[i], cs[j]] + rest) == multiset(cs) && multiset([cs[j], cs[i]] + rest) == multiset(cs)
  {
    var a, b, c := cs[..i], cs[i + 1..j], cs[j + 1..];
    assert cs == a + [cs[i]] + b + [cs[j]] + c;
  }

  /** The first choice with a given code. */
  function FirstWithCode(cs: seq<ChoiceDefinition>, code: string): Option<ChoiceDefinition> {
    if |cs| == 0 then None else if cs[0].code == code then Some(cs[0]) else FirstWithCode(cs[1..], code)
  }

  lemma {:induction false} InsertKeepsFirst(x: ChoiceDefinition, cs: seq<ChoiceDefinition>)
    ensures FirstWithCode(Insert(x, cs, ChoiceKey), x.code) == Some(x)
  {
    if |cs| > 0 && KeyLess(ChoiceKey(cs[0]), ChoiceKey(x)) {
      KeyTotal(ChoiceKey(x), ChoiceKey(x));
      InsertKeepsFirst(x, cs[1..]);
      var r := Insert(x, cs, ChoiceKey);
      assert r[1..] == Insert(x, cs[1..], ChoiceKey);
    }
  }

  lemma {:induction false} FrontPair(x: ChoiceDefinition, y: ChoiceDefinition, rest: seq<ChoiceDefinition>)
    ensures FirstWithCode(SortBy([x, y] + rest, ChoiceKey), x.code) == Some(x)
  {
    hide Insert;
    var ds := [x, y] + rest;
    assert SortBy(ds, ChoiceKey) == Insert(ds[0], SortBy(ds[1..], ChoiceKey), ChoiceKey);
    InsertKeepsFirst(x, SortBy(ds[1..], ChoiceKey));
  }

  lemma {:induction false} TextsIdentify(xs: seq<string>)
    ensures KeysIdentify(xs, TextKey)
  {
    forall i, j | 0 <= i < |xs| && 0 <= j < |xs| && TextKey(xs[i]) == TextKey(xs[j]) ensures xs[i] == xs[j] {
      assert TextKey(xs[i])[0] == TextKey(xs[j])[0];
    }
  }

  lemma {:induction false} CanonicalScopeShuffled(a: Scope, b: Scope)
    requires SameEntries(a, b)
    ensures CanonicalScope(a) == CanonicalScope(b)
  {
    hide SortBy, TextKey;
    TextsIdentify(a.lineIds); SortShuffled(a.lineIds, b.lineIds, TextKey);
    TextsIdentify(a.processIds); SortShuffled(a.processIds, b.processIds, TextKey);
    TextsIdentify(a.layerIds); SortShuffled(a.layerIds, b.layerIds, TextKey);
    TextsIdentify(a.stepSeqs); SortShuffled(a.stepSeqs, b.stepSeqs, TextKey);
    TextsIdentify(a.eqpTypes); SortShuffled(a.eqpTypes, b.eqpTypes, TextKey);
    TextsIdentify(a.areaNames); SortShuffled(a.areaNames, b.areaNames, TextKey);
  }

  lemma {:induction false} CanonicalParameterShuffled(p: ParameterDefinition, q: ParameterDefinition)
    requires SameChoices(p, q) && ConsistentChoices(p)
    ensures CanonicalParameter(p) == CanonicalParameter(q)
  {
    hide SortBy;
    SortShuffled(p.choices, q.choices, ChoiceKey);
  }

  lemma {:induction false} EachParameterPointwise(a: seq<ParameterDefinition>, b: seq<ParameterDefinition>)
    requires |a| == |b| && forall i :: 0 <= i < |a| ==> SameChoices(a[i], b[i]) && ConsistentChoices(a[i])
    ensures EachParameter(a) == EachParameter(b)
  {
    hide CanonicalParameter, ConsistentChoices, SameChoices;
    if |a| > 0 {
      CanonicalParameterShuffled(a[0], b[0]);
      EachParameterPointwise(a[1..], b[1..]);
    }
  }

  lemma {:induction false} EachRulePointwise(a: seq<Rule>, b: seq<Rule>, ps: seq<ParameterDefinition>,
      qs: seq<ParameterDefinition>)
    requires |a| == |b| && forall i :: 0 <= i < |a| ==> CanonicalRule(a[i], ps) == CanonicalRule(b[i], qs)
    ensures EachRule(a, ps) == EachRule(b, qs)
  {
    hide CanonicalRule;
    if |a| > 0 { EachRulePointwise(a[1..], b[1..], ps, qs); }
  }

  /** A lookup in rearranged parameters finds the same parameter up to choice order. */
  lemma {:induction false} FindRearranged(ps: seq<ParameterDefinition>, qs: seq<ParameterDefinition>, code: string)
    requires Rearranged(ps, qs, SameChoices) && DistinctKeys(ps, CodeKey) && DistinctKeys(qs, CodeKey)
    ensures FindParameter(ps, code).Some? <==> FindParameter(qs, code).Some?
    ensures FindParameter(ps, code).Some? ==> SameChoices(FindParameter(ps, code).value, FindParameter(qs, code).value)
  {
    var mid: seq<ParameterDefinition> :| RearrangedVia(ps, mid, qs, SameChoices);
    SameMembers(ps, mid);
    FindParameterMember(ps, code);
    FindParameterMember(qs, code);
    if FindParameter(ps, code).Some? {
      var i := IndexOf(mid, FindParameter(ps, code).value);
      assert SameChoices(mid[i], qs[i]) && qs[i] in qs;
      FindParameterUnique(qs, qs[i]);
    }
    if FindParameter(qs, code).Some? {
      var i := IndexOf(qs, FindParameter(qs, code).value);
      assert SameChoices(mid[i], qs[i]) && mid[i] in ps;
    }
  }

  lemma {:induction false} HasChoiceShuffled(p: ParameterDefinition, q: ParameterDefinition, code: string)
    requires SameChoices(p, q)
    ensures HasChoice(p, code) ==> HasChoice(q, code)
  {
    SameMembers(p.choices, q.choices);
    if HasChoice(p, code) {
      var i :| 0 <= i < |p.choices| && p.choices[i].code == code;
      assert p.choices[i] in q.choices;
      var j := IndexOf(q.choices, p.choices[i]);
      assert q.choices[j].code == code;
    }
  }

  lemma {:induction false} CanonicalSpecRearranged(spec: Spec, ps: seq<ParameterDefinition>,
      qs: seq<ParameterDefinition>)
    requires Rearranged(ps, qs, SameChoices) && DistinctKeys(ps, CodeKey) && DistinctKeys(qs, CodeKey)
    ensures CanonicalSpec(spec, ps) == CanonicalSpec(spec, qs)
  {
    hide FindParameter, CanonicalTyped, HasChoice, DistinctKeys;
    match spec
    case RequiredIf(whenCode, literal, requiredCode, _) =>
      FindRearranged(ps, qs, whenCode);
      FindRearranged(ps, qs, requiredCode);
      if FindParameter(ps, whenCode).Some? {
        var p, q := FindParameter(ps, whenCode).value, FindParameter(qs, whenCode).value;
        var equals := CanonicalTyped(p.valueType, Some(literal));
        if equals.Ok? && equals.value.Some? {
          HasChoiceShuffled(p, q, equals.value.value);
          HasChoiceShuffled(q, p, equals.value.value);
        }
      }
    case PriorPor(sourceCode, candidateCode, _) =>
      FindRearranged(ps, qs, sourceCode);
      FindRearranged(ps, qs, candidateCode);
  }

  lemma {:induction false} DistinctRearranged<T(!new)>(xs: seq<T>, mid: seq<T>, ys: seq<T>, same: (T, T) -> bool,
      key: T -> Key)
    requires RearrangedVia(xs, mid, ys, same) && forall i :: 0 <= i < |ys| ==> key(mid[i]) == key(ys[i])
    ensures DistinctKeys(xs, key) <==> DistinctKeys(ys, key)
    ensures DistinctKeys(mid, key) <==> DistinctKeys(ys, key)
  {
    if DistinctKeys(xs, key) { DistinctKeysOfPermutation(xs, mid, key); }
    if DistinctKeys(mid, key) { DistinctKeysOfPermutation(mid, xs, key); }
  }

  /** Corresponding parameters after both sides are sorted by code. */
  lemma {:induction false} SortedParametersAgree(ps: seq<ParameterDefinition>, mid: seq<ParameterDefinition>,
      qs: seq<ParameterDefinition>)
    requires RearrangedVia(ps, mid, qs, SameChoices) && DistinctKeys(ps, CodeKey)
    requires forall p :: p in ps ==> ConsistentChoices(p)
    ensures EachParameter(SortBy(ps, CodeKey)) == EachParameter(SortBy(qs, CodeKey))
  {
    hide SortBy, EachParameter, ConsistentChoices;
    SortPermutation(ps, mid, CodeKey);
    assert forall i :: 0 <= i < |mid| ==> SameChoices(mid[i], qs[i]);
    assert Pointwise(mid, qs, CodeKey, SameChoices);
    SortPointwise(mid, qs, CodeKey, SameChoices);
    SortProps(ps, CodeKey);
    var a, b := SortBy(ps, CodeKey), SortBy(qs, CodeKey);
    forall i | 0 <= i < |a| ensures SameChoices(a[i], b[i]) && ConsistentChoices(a[i]) { assert a[i] in ps; }
    EachParameterPointwise(a, b);
  }

  lemma {:induction false} SortedRulesAgree(rules: seq<Rule>, mid: seq<Rule>, rules': seq<Rule>,
      ps: seq<ParameterDefinition>, qs: seq<ParameterDefinition>)
    requires RearrangedVia(rules, mid, rules', SameFilters) && DistinctKeys(rules, RuleCodeKey)
    requires Rearranged(ps, qs, SameChoices) && DistinctKeys(ps, CodeKey) && DistinctKeys(qs, CodeKey)
    ensures EachRule(SortBy(rules, RuleOrder), ps) == EachRule(SortBy(rules', RuleOrder), qs)
  {
    hide SortBy, EachRule, CanonicalSpec, CanonicalScope, SameEntries;
    forall i, j | 0 <= i < j < |rules| ensures RuleOrder(rules[i]) != RuleOrder(rules[j]) {
      assert RuleCodeKey(rules[i]) != RuleCodeKey(rules[j]);
      assert RuleOrder(rules[i])[0] == RuleCodeKey(rules[i])[0] && RuleOrder(rules[j])[0] == RuleCodeKey(rules[j])[0];
    }
    SortPermutation(rules, mid, RuleOrder);
    assert forall i :: 0 <= i < |mid| ==> SameFilters(mid[i], rules'[i]);
    assert Pointwise(mid, rules', RuleOrder, SameFilters);
    SortPointwise(mid, rules', RuleOrder, SameFilters);
    var a, b := SortBy(rules, RuleOrder), SortBy(rules', RuleOrder);
    forall i | 0 <= i < |a| ensures CanonicalRule(a[i], ps) == CanonicalRule(b[i], qs) {
      assert SameFilters(a[i], b[i]);
      CanonicalScopeShuffled(a[i].scope, b[i].scope);
      CanonicalSpecRearranged(a[i].spec, ps, qs);
    }
    EachRulePointwise(a, b, ps, qs);
  }

  /** Corresponding members of a rearrangement. */
  lemma {:induction false} RearrangedMember(ps: seq<ParameterDefinition>, qs: seq<ParameterDefinition>,
      q: ParameterDefinition) returns (p: ParameterDefinition)
    requires Rearranged(ps, qs, SameChoices) && q in qs
    ensures p in ps && SameChoices(p, q)
  {
    var mid: seq<ParameterDefinition> :| RearrangedVia(ps, mid, qs, SameChoices);
    SameMembers(ps, mid);
    var i := IndexOf(qs, q);
    p := mid[i];
    assert SameChoices(mid[i], qs[i]) && p in mid;
  }

  lemma {:induction false} RearrangedMember'(ps: seq<ParameterDefinition>, qs: seq<ParameterDefinition>,
      p: ParameterDefinition) returns (q: ParameterDefinition)
    requires Rearranged(ps, qs, SameChoices) && p in ps
    ensures q in qs && SameChoices(p, q)
  {
    var mid: seq<ParameterDefinition> :| RearrangedVia(ps, mid, qs, SameChoices);
    SameMembers(ps, mid);
    var i := IndexOf(mid, p);
    q := qs[i];
    assert SameChoices(mid[i], qs[i]) && q in qs;
  }

  lemma {:induction false} ReferencesRearranged(ps: seq<ParameterDefinition>, qs: seq<ParameterDefinition>,
      versions: map<string, int>)
    requires Rearranged(ps, qs, SameChoices)
    ensures ChoiceSetsBound(ps) <==> ChoiceSetsBound(qs)
    ensures VersionsKnown(ps, versions) <==> VersionsKnown(qs, versions)
    ensures forall code :: References(ps, code) <==> References(qs, code)
  {
    hide Rearranged;
    if ChoiceSetsBound(ps) {
      forall q | q in qs && q.valueType.Choice? ensures q.choiceSetCode.Some? { var p := RearrangedMember(ps, qs, q); }
    }
    if ChoiceSetsBound(qs) {
      forall p | p in ps && p.valueType.Choice? ensures p.choiceSetCode.Some? { var q := RearrangedMember'(ps, qs, p); }
    }
    if VersionsKnown(ps, versions) {
      forall q | q in qs && q.valueType.Choice? && q.choiceSetCode.Some?
        ensures q.choiceSetCode.value in versions
        ensures versions[q.choiceSetCode.value] > 0 { var p := RearrangedMember(ps, qs, q); }
    }
    if VersionsKnown(qs, versions) {
      forall p | p in ps && p.valueType.Choice? && p.choiceSetCode.Some?
        ensures p.choiceSetCode.value in versions
        ensures versions[p.choiceSetCode.value] > 0 { var q := RearrangedMember'(ps, qs, p); }
    }
    forall code ensures References(ps, code) <==> References(qs, code) {
      if References(ps, code) {
        var p :| p in ps && p.valueType.Choice? && p.choiceSetCode == Some(code);
        var q := RearrangedMember'(ps, qs, p);
      }
      if References(qs, code) {
        var q :| q in qs && q.valueType.Choice? && q.choiceSetCode == Some(code);
        var p := RearrangedMember(ps, qs, q);
      }
    }
  }

  lemma {:induction false} DistinctCodesRearranged(ps: seq<ParameterDefinition>, mid: seq<ParameterDefinition>,
      qs: seq<ParameterDefinition>)
    requires RearrangedVia(ps, mid, qs, SameChoices)
    ensures DistinctKeys(ps, CodeKey) <==> DistinctKeys(qs, CodeKey)
  {
    hide DistinctKeys;
    assert forall i :: 0 <= i < |mid| ==> SameChoices(mid[i], qs[i]) && CodeKey(mid[i]) == CodeKey(qs[i]);
    DistinctRearranged(ps, mid, qs, SameChoices, CodeKey);
  }

  lemma {:induction false} DistinctRulesRearranged(rules: seq<Rule>, mid: seq<Rule>, rules': seq<Rule>)
    requires RearrangedVia(rules, mid, rules', SameFilters)
    ensures DistinctKeys(rules, RuleCodeKey) <==> DistinctKeys(rules', RuleCodeKey)
  {
    hide DistinctKeys, SameEntries;
    assert forall i :: 0 <= i < |mid| ==>
      SameFilters(mid[i], rules'[i]) && RuleCodeKey(mid[i]) == RuleCodeKey(rules'[i]);
    DistinctRearranged(rules, mid, rules', SameFilters, RuleCodeKey);
  }

  /** The payload does not depend on the order of parameters, choices, rules or scope entries. */
  lemma {:induction false} PayloadIgnoresInputOrder(ps: seq<ParameterDefinition>, qs: seq<ParameterDefinition>,
      versions: map<string, int>,
      rules: seq<Rule>, rules': seq<Rule>)
    requires Rearranged(ps, qs, SameChoices) && Rearranged(rules, rules', SameFilters)
    requires forall p :: p in ps ==> ConsistentChoices(p)
    ensures CanonicalPayload(ps, versions, rules) == CanonicalPayload(qs, versions, rules')
  {
    hide SortBy, EachParameter, EachRule, ChoiceSetsBound, VersionsKnown, References, ConsistentChoices, DistinctKeys,
         SameFilters, SameChoices, RearrangedVia, CodeKey, RuleCodeKey;
    var mid: seq<ParameterDefinition> :| RearrangedVia(ps, mid, qs, SameChoices);
    var rmid: seq<Rule> :| RearrangedVia(rules, rmid, rules', SameFilters);
    DistinctCodesRearranged(ps, mid, qs);
    DistinctRulesRearranged(rules, rmid, rules');
    ReferencesRearranged(ps, qs, versions);
    if DistinctKeys(ps, CodeKey) && DistinctKeys(rules, RuleCodeKey) {
      SortedParametersAgree(ps, mid, qs);
      SortedRulesAgree(rules, rmid, rules', ps, qs);
      var a := map code | code in versions && References(ps, code) :: versions[code];
      var b := map code | code in versions && References(qs, code) :: versions[code];
      assert a == b;
    }
  }
}
