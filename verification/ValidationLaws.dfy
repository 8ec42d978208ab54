/**
 * Laws of project validation: which issues are reported, that the issue order is total,
 * and that results do not depend on the order in which definitions and rows arrive.
 */
module ValidationLaws {
  import opened Results
  import opened Ordering
  import opened Texts
  import opened Validation
  import Decimals
  import Pattern

  // ---------------------------------------------------------------- which issues are reported

  ghost predicate IsCellIssue(ps: seq<Prepared>, ls: seq<LayerInput>, x: Issue) {
    exists l, c, p :: l in ls && c in l.conditions && p in ps && CellIssue(p, l, c) == Some(x)
  }

  ghost predicate IsRuleIssue(k: Check, ls: seq<LayerInput>, x: Issue)
    requires WellFormedCheck(k)
  {
    exists rank: nat, c :: rank < |ls| && c in ls[rank].conditions && RuleIssue(k, ls, rank, c) == Some(x)
  }

  lemma {:induction false} CellIssuesMember(ps: seq<Prepared>, l: LayerInput, c: ConditionInput, x: Issue)
    ensures x in CellIssues(ps, l, c) <==> exists p :: p in ps && CellIssue(p, l, c) == Some(x)
  {
    hide CellIssue;
    var n := |ps| - 1;
    if n >= 0 {
      CellIssuesMember(ps[..n], l, c, x);
      assert ps == ps[..n] + [ps[n]];
    }
  }

  lemma {:induction false} ConditionIssuesMember(ps: seq<Prepared>, l: LayerInput, cs: seq<ConditionInput>, x: Issue)
    ensures x in ConditionIssues(ps, l, cs) <==> exists c, p :: c in cs && p in ps && CellIssue(p, l, c) == Some(x)
  {
    hide CellIssue, CellIssues;
    var n := |cs| - 1;
    if n >= 0 {
      ConditionIssuesMember(ps, l, cs[..n], x);
      CellIssuesMember(ps, l, cs[n], x);
      assert cs == cs[..n] + [cs[n]];
    }
  }

  /** A standalone issue is reported exactly when some cell raises it. */
  lemma {:induction false} StandaloneIssuesExactly(ps: seq<Prepared>, ls: seq<LayerInput>, x: Issue)
    ensures x in StandaloneIssues(ps, ls) <==> IsCellIssue(ps, ls, x)
  {
    hide CellIssue, ConditionIssues;
    var n := |ls| - 1;
    if n >= 0 {
      StandaloneIssuesExactly(ps, ls[..n], x);
      ConditionIssuesMember(ps, ls[n], ls[n].conditions, x);
      assert ls == ls[..n] + [ls[n]];
    }
  }

  lemma {:induction false} RuleIssuesInMember(k: Check, ls: seq<LayerInput>, rank: nat, cs: seq<ConditionInput>,
      x: Issue)
    requires rank < |ls| && WellFormedCheck(k)
    ensures x in RuleIssuesIn(k, ls, rank, cs) <==> exists c :: c in cs && RuleIssue(k, ls, rank, c) == Some(x)
  {
    hide RuleIssue;
    var n := |cs| - 1;
    if n >= 0 {
      RuleIssuesInMember(k, ls, rank, cs[..n], x);
      assert cs == cs[..n] + [cs[n]];
    }
  }

  lemma {:induction false} RuleIssuesUpTo(k: Check, ls: seq<LayerInput>, n: nat, x: Issue)
    requires n <= |ls| && WellFormedCheck(k)
    ensures x in RuleIssues(k, ls, n) <==>
      exists rank: nat, c :: rank < n && c in ls[rank].conditions && RuleIssue(k, ls, rank, c) == Some(x)
  {
    hide RuleIssue, RuleIssuesIn;
    if n > 0 {
      RuleIssuesUpTo(k, ls, n - 1, x);
      RuleIssuesInMember(k, ls, n - 1, ls[n - 1].conditions, x);
    }
  }

  /** A relation issue is reported exactly when the rule fails on some condition of some layer. */
  lemma {:induction false} RuleIssuesExactly(k: Check, ls: seq<LayerInput>, x: Issue)
    requires WellFormedCheck(k)
    ensures x in RuleIssues(k, ls, |ls|) <==> IsRuleIssue(k, ls, x)
  {
    hide RuleIssue, RuleIssues;
    RuleIssuesUpTo(k, ls, |ls|, x);
  }

  /**
   * The prior-POR rule in declarative form: a row in scope is reported exactly when it has a
   * value that no strictly earlier layer's first POR row carries, with the layer's rank as the
   * number of layers searched.
   */
  lemma {:induction false} PriorPorExactly(rule: Rule, t: ValueType, ls: seq<LayerInput>, rank: nat, c: ConditionInput)
    requires rule.spec.PriorPor? && rank < |ls| && c in ls[rank].conditions
    ensures var k := PriorCheck(rule, t);
      var value := StoredTyped(t, Lookup(c.values, rule.spec.sourceCode));
      var reported := exists x :: x in RuleIssues(k, ls, |ls|) && RuleIssue(k, ls, rank, c) == Some(x);
      && (reported <==>
            && AppliesToLayer(rule.scope, ls[rank])
            && value.Some?
            && forall j :: 0 <= j < rank ==> PorValue(ls[j], t, rule.spec.candidateCode) != value)
      && (reported ==> RuleIssue(k, ls, rank, c).value.details["searched_layer_count"] == IntValue(rank))
  {
    hide StoredTyped, AppliesToLayer, RuleIssues, PorValue, IntText, Lookup;
    var k := PriorCheck(rule, t);
    if RuleIssue(k, ls, rank, c).Some? {
      RuleIssuesExactly(k, ls, RuleIssue(k, ls, rank, c).value);
    }
  }

  // ---------------------------------------------------------------- the issue order is total

  /** What identifies an issue: where it is, which rule raised it, which parameter it names. */
  function IdentityKey(x: Issue): Key {
    [ Txt(x.layerKey), Num(x.conditionId), Num(if x.ruleCode.Some? then 1 else 0),
      Txt(if x.ruleCode.Some? then x.ruleCode.value else ""), Txt(x.parameterCode) ]
  }

  lemma {:induction false} IdentityInjective(x: Issue, y: Issue)
    requires IdentityKey(x) == IdentityKey(y)
    ensures x.layerKey == y.layerKey && x.conditionId == y.conditionId && x.ruleCode == y.ruleCode
    ensures x.parameterCode == y.parameterCode
  {
    var a, b := IdentityKey(x), IdentityKey(y);
    assert a[0] == b[0] && a[1] == b[1] && a[2] == b[2] && a[3] == b[3] && a[4] == b[4];
  }

  /** Issues of different layers, rows or rules have different identities. */
  lemma {:induction false} Separate(xs: seq<Issue>, ys: seq<Issue>)
    requires forall i, j :: 0 <= i < |xs| && 0 <= j < |ys| ==>
      xs[i].layerKey != ys[j].layerKey || xs[i].conditionId != ys[j].conditionId || xs[i].ruleCode != ys[j].ruleCode
        || xs[i].parameterCode != ys[j].parameterCode
    requires DistinctKeys(xs, IdentityKey) && DistinctKeys(ys, IdentityKey)
    ensures DistinctKeys(xs + ys, IdentityKey)
  {
    hide IdentityKey;
    forall i, j | 0 <= i < |xs| && 0 <= j < |ys| ensures IdentityKey(xs[i]) != IdentityKey(ys[j]) {
      if IdentityKey(xs[i]) == IdentityKey(ys[j]) { IdentityInjective(xs[i], ys[j]); }
    }
    DistinctConcat(xs, ys, IdentityKey);
  }

  predicate NoColon(s: string) { forall i :: 0 <= i < |s| ==> s[i] != ':' }

  predicate StartsWithCode(x: Issue) {
    |x.key| > |x.code| && x.key[..|x.code|] == x.code && x.key[|x.code|] == ':' && NoColon(x.code)
  }

  predicate RelationCode(code: string) { code == "required_if" || code == "value_not_found_in_prior_por" }

  /** Issue keys begin with the issue code, and relation codes are distinct from standalone codes. */
  predicate Shaped(x: Issue) {
    && StartsWithCode(x)
    && (x.ruleCode.Some? <==> RelationCode(x.code))
    && (x.ruleCode.Some? <==> x.ruleVersion.Some?)
  }

  function Ids(cs: seq<ConditionInput>): set<int> {
    if |cs| == 0 then {} else Ids(cs[..|cs| - 1]) + {cs[|cs| - 1].id}
  }

  function Keys(ls: seq<LayerInput>): set<string> {
    if |ls| == 0 then {} else Keys(ls[..|ls| - 1]) + {ls[|ls| - 1].key}
  }

  function IdKey(c: ConditionInput): Key { [Num(c.id)] }

  ghost predicate DistinctIds(ls: seq<LayerInput>) {
    forall i :: 0 <= i < |ls| ==> DistinctKeys(ls[i].conditions, IdKey)
  }

  predicate StandaloneCode(code: string) { NoColon(code) && !RelationCode(code) }

  lemma {:induction false} StandaloneCodes()
    ensures StandaloneCode("required") && StandaloneCode("number_malformed") && StandaloneCode("range_min")
    ensures StandaloneCode("range_max")
    ensures StandaloneCode("pattern_mismatch") && StandaloneCode("choice_unknown") && StandaloneCode("choice_inactive")
  {
  }

  lemma {:induction false} StandaloneIssueShape(c: ConditionInput, l: LayerInput, p: string)
    ensures forall code, severity, details :: StandaloneCode(code) ==>
      var x := StandaloneIssue(code, severity, c, l, p, details);
      Shaped(x) && x.ruleCode.None? && x.layerKey == l.key && x.conditionId == c.id && x.parameterCode == p
  {
  }

  lemma {:induction false} RelationIssueShape(code: string, rule: Rule, c: ConditionInput, l: LayerInput,
      parameterCode: string, details: map<string, DetailValue>)
    requires NoColon(code) && RelationCode(code)
    ensures Shaped(RelationIssue(code, rule, c, l, parameterCode, details))
  {
  }

  lemma {:induction false} CellIssueShape(p: Prepared, l: LayerInput, c: ConditionInput)
    ensures var x := CellIssue(p, l, c);
      x.Some? ==>
        Shaped(x.value) && x.value.ruleCode.None? && x.value.layerKey == l.key && x.value.conditionId == c.id
          && x.value.parameterCode == p.code
  {
    hide Decimals.Normalize, Decimals.Value, Pattern.FullMatch, Lookup, StandaloneIssue, Shaped, StandaloneCode;
    StandaloneCodes();
    StandaloneIssueShape(c, l, p.code);
  }

  lemma {:induction false} RuleIssueShape(k: Check, ls: seq<LayerInput>, rank: nat, c: ConditionInput)
    requires rank < |ls| && WellFormedCheck(k)
    ensures var x := RuleIssue(k, ls, rank, c);
      x.Some? ==>
        Shaped(x.value) && x.value.ruleCode == Some(k.rule.code) && x.value.layerKey == ls[rank].key
          && x.value.conditionId == c.id
    ensures var x := RuleIssue(k, ls, rank, c);
      x.Some? ==>
        x.value.parameterCode == (if k.RequiredCheck? then k.rule.spec.requiredCode else k.rule.spec.sourceCode)
  {
    hide StoredTyped, AppliesToLayer, CarriedBefore, Lookup, IntText, Shaped;
    var x := RuleIssue(k, ls, rank, c);
    if x.Some? { RelationIssueShape(x.value.code, k.rule, c, ls[rank], x.value.parameterCode, x.value.details); }
  }

  /** Every issue of the sequence is well shaped and raised in this layer's row `id`, by no rule or by this one. */
  ghost predicate RaisedAt(xs: seq<Issue>, layer: string, ids: set<int>, rule: Option<string>) {
    forall i :: 0 <= i < |xs| ==>
      Shaped(xs[i]) && xs[i].layerKey == layer && xs[i].conditionId in ids && xs[i].ruleCode == rule
  }

  lemma {:induction false} CellIssuesDistinct(ps: seq<Prepared>, l: LayerInput, c: ConditionInput)
    requires DistinctKeys(ps, PreparedCode)
    ensures var xs := CellIssues(ps, l, c);
      && DistinctKeys(xs, IdentityKey) && RaisedAt(xs, l.key, {c.id}, None)
      && forall i :: 0 <= i < |xs| ==> xs[i].parameterCode in Codes(ps)
  {
    hide IdentityKey, Shaped, CellIssue;
    var n := |ps| - 1;
    if n >= 0 {
      CellIssuesDistinct(ps[..n], l, c);
      CellIssueShape(ps[n], l, c);
      CodeAbsent(ps, n);
      var x := CellIssue(ps[n], l, c);
      Separate(CellIssues(ps[..n], l, c), AsSeq(x));
    }
  }

  lemma {:induction false} CodesMember(ps: seq<Prepared>, code: string)
    ensures code in Codes(ps) <==> exists i :: 0 <= i < |ps| && ps[i].code == code
  {
    var n := |ps| - 1;
    if n >= 0 {
      CodesMember(ps[..n], code);
      assert ps == ps[..n] + [ps[n]];
    }
  }

  lemma {:induction false} CodeAbsent(ps: seq<Prepared>, n: nat)
    requires n < |ps| && DistinctKeys(ps, PreparedCode)
    ensures ps[n].code !in Codes(ps[..n])
  {
    CodesMember(ps[..n], ps[n].code);
    forall i | 0 <= i < n ensures ps[..n][i].code != ps[n].code {
      assert PreparedCode(ps[i]) != PreparedCode(ps[n]);
    }
  }

  lemma {:induction false} IdsMember(cs: seq<ConditionInput>, id: int)
    ensures id in Ids(cs) <==> exists i :: 0 <= i < |cs| && cs[i].id == id
  {
    var n := |cs| - 1;
    if n >= 0 {
      IdsMember(cs[..n], id);
      assert cs == cs[..n] + [cs[n]];
    }
  }

  lemma {:induction false} IdAbsent(cs: seq<ConditionInput>, n: nat)
    requires n < |cs| && DistinctKeys(cs, IdKey)
    ensures cs[n].id !in Ids(cs[..n])
  {
    IdsMember(cs[..n], cs[n].id);
    forall i | 0 <= i < n ensures cs[..n][i].id != cs[n].id {
      assert IdKey(cs[i]) != IdKey(cs[n]);
    }
  }

  lemma {:induction false} KeysMember(ls: seq<LayerInput>, key: string)
    ensures key in Keys(ls) <==> exists i :: 0 <= i < |ls| && ls[i].key == key
  {
    var n := |ls| - 1;
    if n >= 0 {
      KeysMember(ls[..n], key);
      assert ls == ls[..n] + [ls[n]];
    }
  }

  lemma {:induction false} KeyAbsent(ls: seq<LayerInput>, n: nat)
    requires n < |ls| && DistinctKeys(ls, LayerKeyOf)
    ensures ls[n].key !in Keys(ls[..n])
  {
    KeysMember(ls[..n], ls[n].key);
    forall i | 0 <= i < n ensures ls[..n][i].key != ls[n].key {
      assert LayerKeyOf(ls[i]) != LayerKeyOf(ls[n]);
    }
  }

  lemma {:induction false} ConditionIssuesDistinct(ps: seq<Prepared>, l: LayerInput, cs: seq<ConditionInput>)
    requires DistinctKeys(ps, PreparedCode) && DistinctKeys(cs, IdKey)
    ensures DistinctKeys(ConditionIssues(ps, l, cs), IdentityKey)
    ensures RaisedAt(ConditionIssues(ps, l, cs), l.key, Ids(cs), None)
  {
    hide IdentityKey, Shaped, CellIssues;
    var n := |cs| - 1;
    if n >= 0 {
      ConditionIssuesDistinct(ps, l, cs[..n]);
      CellIssuesDistinct(ps, l, cs[n]);
      IdAbsent(cs, n);
      Separate(ConditionIssues(ps, l, cs[..n]), CellIssues(ps, l, cs[n]));
    }
  }

  /** Every issue is well shaped and raised in one of these layers, by no rule or by one of these. */
  ghost predicate RaisedIn(xs: seq<Issue>, keys: set<string>, rules: set<Option<string>>) {
    forall i :: 0 <= i < |xs| ==> Shaped(xs[i]) && xs[i].layerKey in keys && xs[i].ruleCode in rules
  }

  lemma {:induction false} StandaloneDistinct(ps: seq<Prepared>, ls: seq<LayerInput>)
    requires DistinctKeys(ps, PreparedCode) && DistinctKeys(ls, LayerKeyOf) && DistinctIds(ls)
    ensures DistinctKeys(StandaloneIssues(ps, ls), IdentityKey) && RaisedIn(StandaloneIssues(ps, ls), Keys(ls), {None})
  {
    hide IdentityKey, Shaped, ConditionIssues, Ids;
    var n := |ls| - 1;
    if n >= 0 {
      StandaloneDistinct(ps, ls[..n]);
      ConditionIssuesDistinct(ps, ls[n], ls[n].conditions);
      KeyAbsent(ls, n);
      Separate(StandaloneIssues(ps, ls[..n]), ConditionIssues(ps, ls[n], ls[n].conditions));
    }
  }

  lemma {:induction false} IdsNext(cs: seq<ConditionInput>)
    requires |cs| > 0
    ensures Ids(cs) == Ids(cs[..|cs| - 1]) + {cs[|cs| - 1].id}
  {
  }

  /** Issues raised on other conditions stay apart from those of one more condition. */
  lemma {:induction false} RaisedNext(xs: seq<Issue>, x: Option<Issue>, layer: string, ids: set<int>, id: int,
      rule: Option<string>)
    requires DistinctKeys(xs, IdentityKey) && RaisedAt(xs, layer, ids, rule) && id !in ids
    requires x.Some? ==>
      Shaped(x.value) && x.value.ruleCode == rule && x.value.layerKey == layer && x.value.conditionId == id
    ensures DistinctKeys(xs + AsSeq(x), IdentityKey) && RaisedAt(xs + AsSeq(x), layer, ids + {id}, rule)
  {
    hide IdentityKey, Shaped;
    Separate(xs, AsSeq(x));
  }

  lemma {:induction false} RuleIssuesInDistinct(k: Check, ls: seq<LayerInput>, rank: nat, cs: seq<ConditionInput>)
    requires rank < |ls| && WellFormedCheck(k) && DistinctKeys(cs, IdKey)
    ensures var xs := RuleIssuesIn(k, ls, rank, cs);
      DistinctKeys(xs, IdentityKey) && RaisedAt(xs, ls[rank].key, Ids(cs), Some(k.rule.code))
  {
    var n := |cs| - 1;
    if n >= 0 {
      assert DistinctKeys(cs[..n], IdKey);
      hide IdentityKey, Shaped, RuleIssue, Ids, IdKey, DistinctKeys, RaisedAt;
      RuleIssuesInDistinct(k, ls, rank, cs[..n]);
      RuleIssueShape(k, ls, rank, cs[n]);
      IdAbsent(cs, n);
      IdsNext(cs);
      RaisedNext(RuleIssuesIn(k, ls, rank, cs[..n]), RuleIssue(k, ls, rank, cs[n]), ls[rank].key, Ids(cs[..n]),
        cs[n].id, Some(k.rule.code));
    }
  }

  /** Issues raised in other layers stay apart from those of one more layer. */
  lemma {:induction false} RaisedInNext(xs: seq<Issue>, ys: seq<Issue>, keys: set<string>, key: string, ids: set<int>,
      rule: Option<string>)
    requires DistinctKeys(xs, IdentityKey) && RaisedIn(xs, keys, {rule}) && key !in keys
    requires DistinctKeys(ys, IdentityKey) && RaisedAt(ys, key, ids, rule)
    ensures DistinctKeys(xs + ys, IdentityKey) && RaisedIn(xs + ys, keys + {key}, {rule})
  {
    hide IdentityKey, Shaped;
    Separate(xs, ys);
  }

  lemma {:induction false} KeysNext(ls: seq<LayerInput>, n: nat)
    requires 0 < n <= |ls|
    ensures Keys(ls[..n]) == Keys(ls[..n - 1]) + {ls[n - 1].key}
  {
    assert ls[..n][..n - 1] == ls[..n - 1];
  }

  lemma {:induction false} RuleIssuesDistinct(k: Check, ls: seq<LayerInput>, n: nat)
    requires n <= |ls| && WellFormedCheck(k) && DistinctKeys(ls, LayerKeyOf) && DistinctIds(ls)
    ensures DistinctKeys(RuleIssues(k, ls, n), IdentityKey)
    ensures RaisedIn(RuleIssues(k, ls, n), Keys(ls[..n]), {Some(k.rule.code)})
  {
    if n > 0 {
      KeyAbsent(ls, n - 1);
      assert DistinctKeys(ls[n - 1].conditions, IdKey);
      hide IdentityKey, Shaped, RuleIssuesIn, Ids, LayerKeyOf, IdKey, Keys, DistinctKeys, RaisedIn, RaisedAt;
      RuleIssuesDistinct(k, ls, n - 1);
      RuleIssuesInDistinct(k, ls, n - 1, ls[n - 1].conditions);
      KeysNext(ls, n);
      RaisedInNext(RuleIssues(k, ls, n - 1), RuleIssuesIn(k, ls, n - 1, ls[n - 1].conditions), Keys(ls[..n - 1]),
        ls[n - 1].key,
                   Ids(ls[n - 1].conditions), Some(k.rule.code));
    }
  }

  function CodesOfRules(rules: seq<Rule>): set<Option<string>> {
    if |rules| == 0 then {} else CodesOfRules(rules[..|rules| - 1]) + {Some(rules[|rules| - 1].code)}
  }

  lemma {:induction false} CodesOfRulesMember(rules: seq<Rule>, code: Option<string>)
    ensures code in CodesOfRules(rules) <==> exists i :: 0 <= i < |rules| && Some(rules[i].code) == code
  {
    var n := |rules| - 1;
    if n >= 0 {
      CodesOfRulesMember(rules[..n], code);
      assert rules == rules[..n] + [rules[n]];
    }
  }

  lemma {:induction false} RelationDistinct(context: ProjectContext, ps: seq<Prepared>, ls: seq<LayerInput>,
      rules: seq<Rule>)
    requires DistinctKeys(ls, LayerKeyOf) && DistinctIds(ls) && DistinctKeys(rules, RuleCodeKey)
    requires RelationIssues(context, ps, ls, rules).Ok?
    ensures var xs := RelationIssues(context, ps, ls, rules).value;
      DistinctKeys(xs, IdentityKey) && RaisedIn(xs, Keys(ls), CodesOfRules(rules))
  {
    hide IdentityKey, Shaped, RuleIssues, ResolveRule, AppliesToProject, Keys;
    var n := |rules| - 1;
    if n >= 0 {
      RelationDistinct(context, ps, ls, rules[..n]);
      if AppliesToProject(rules[n].scope, context) {
        var k := ResolveRule(rules[n], ps).value;
        RuleIssuesDistinct(k, ls, |ls|);
        assert ls[..|ls|] == ls;
        RuleCodeAbsent(rules, n);
        Separate(RelationIssues(context, ps, ls, rules[..n]).value, RuleIssues(k, ls, |ls|));
      }
    }
  }

  lemma {:induction false} RuleCodeAbsent(rules: seq<Rule>, n: nat)
    requires n < |rules| && DistinctKeys(rules, RuleCodeKey)
    ensures Some(rules[n].code) !in CodesOfRules(rules[..n])
  {
    CodesOfRulesMember(rules[..n], Some(rules[n].code));
    forall i | 0 <= i < n ensures rules[..n][i].code != rules[n].code {
      assert RuleCodeKey(rules[i]) != RuleCodeKey(rules[n]);
    }
  }

  lemma {:induction false} NoneIsNoRule(rules: seq<Rule>)
    ensures None !in CodesOfRules(rules)
  {
    if |rules| > 0 { NoneIsNoRule(rules[..|rules| - 1]); }
  }

  lemma {:induction false} LayerRankInjective(ls: seq<LayerInput>, a: string, b: string)
    requires a in Keys(ls) && b in Keys(ls) && LayerRank(ls, a) == LayerRank(ls, b)
    ensures a == b
  {
    KeysMember(ls, a);
    KeysMember(ls, b);
    RankOfKey(ls, a);
    RankOfKey(ls, b);
  }

  lemma {:induction false} RankOfKey(ls: seq<LayerInput>, a: string)
    requires exists i :: 0 <= i < |ls| && ls[i].key == a
    ensures 0 <= LayerRank(ls, a) < |ls| && ls[LayerRank(ls, a)].key == a
  {
    if ls[0].key != a {
      var i :| 0 <= i < |ls| && ls[i].key == a;
      assert ls[1..][i - 1].key == a;
      RankOfKey(ls[1..], a);
    }
  }

  /** Two reported issues with the same sort key have the same identity. */
  lemma {:induction false} IssueKeyDetermines(ls: seq<LayerInput>, ps: seq<Prepared>, x: Issue, y: Issue)
    requires Shaped(x) && Shaped(y) && x.layerKey in Keys(ls) && y.layerKey in Keys(ls)
    requires IssueKey(ls, ps, x) == IssueKey(ls, ps, y)
    ensures IdentityKey(x) == IdentityKey(y)
  {
    hide Keys, ConditionIndexOf, ParameterSort, RelationCode;
    var kx, ky := IssueKey(ls, ps, x), IssueKey(ls, ps, y);
    assert kx[1] == ky[1] && kx[3] == ky[3] && kx[5] == ky[5] && kx[6] == ky[6] && kx[7] == ky[7] && kx[8] == ky[8];
    LayerRankInjective(ls, x.layerKey, y.layerKey);
    SameCode(x, y);
  }

  lemma {:induction false} SameCode(x: Issue, y: Issue)
    requires StartsWithCode(x) && StartsWithCode(y) && x.key == y.key
    ensures x.code == y.code
  {
    ColonPosition(x);
    ColonPosition(y);
  }

  function FirstColon(s: string): nat {
    if |s| == 0 || s[0] == ':' then 0 else 1 + FirstColon(s[1..])
  }

  lemma {:induction false} FirstColonAt(s: string, n: nat)
    requires n < |s| && s[n] == ':' && NoColon(s[..n])
    ensures FirstColon(s) == n
  {
    if n > 0 {
      assert s[..n][0] == s[0];
      assert s[1..][..n - 1] == s[..n][1..];
      FirstColonAt(s[1..], n - 1);
    }
  }

  lemma {:induction false} ColonPosition(x: Issue)
    requires StartsWithCode(x)
    ensures FirstColon(x.key) == |x.code|
  {
    FirstColonAt(x.key, |x.code|);
  }

  lemma {:induction false} AllDistinct(context: ProjectContext, ps: seq<Prepared>, ls: seq<LayerInput>,
      rules: seq<Rule>)
    requires DistinctKeys(ps, PreparedCode) && DistinctKeys(ls, LayerKeyOf) && DistinctIds(ls)
    requires DistinctKeys(rules, RuleCodeKey)
    requires RelationIssues(context, ps, ls, rules).Ok?
    ensures DistinctKeys(StandaloneIssues(ps, ls) + RelationIssues(context, ps, ls, rules).value, IssueOrder(ls, ps))
  {
    hide StandaloneIssues, RelationIssues, Keys, CodesOfRules, IssueKey, Shaped, IdentityKey;
    var a, b := StandaloneIssues(ps, ls), RelationIssues(context, ps, ls, rules).value;
    StandaloneDistinct(ps, ls);
    RelationDistinct(context, ps, ls, rules);
    NoneIsNoRule(rules);
    Separate(a, b);
    var xs := a + b;
    forall i, j | 0 <= i < j < |xs| ensures IssueOrder(ls, ps)(xs[i]) != IssueOrder(ls, ps)(xs[j]) {
      if IssueKey(ls, ps, xs[i]) == IssueKey(ls, ps, xs[j]) {
        IssueKeyDetermines(ls, ps, xs[i], xs[j]);
      }
    }
  }

  lemma {:induction false} PrepareAllDistinct(parameters: seq<ParameterDefinition>)
    requires PrepareAll(parameters).Ok?
    ensures DistinctKeys(PrepareAll(parameters).value, PreparedCode)
  {
    hide Prepare, SortBy;
    PrepareEachCodes(parameters);
    var each := PrepareEach(parameters).value;
    forall i, j | 0 <= i < j < |each| ensures PreparedCode(each[i]) != PreparedCode(each[j]) {
      assert CodeKey(parameters[i]) != CodeKey(parameters[j]);
    }
    SortProps(each, PreparedOrder);
    DistinctKeysOfPermutation(each, SortBy(each, PreparedOrder), PreparedCode);
  }

  lemma {:induction false} OrderLayersDistinct(layers: seq<LayerInput>)
    requires DistinctKeys(layers, LayerKeyOf) && DistinctIds(layers)
    ensures DistinctKeys(OrderLayers(layers), LayerKeyOf) && DistinctIds(OrderLayers(layers))
  {
    hide SortBy, OrderEach;
    var sorted, ordered := SortBy(layers, LayerOrder), OrderLayers(layers);
    SortProps(layers, LayerOrder);
    DistinctKeysOfPermutation(layers, sorted, LayerKeyOf);
    forall i, j | 0 <= i < j < |ordered| ensures LayerKeyOf(ordered[i]) != LayerKeyOf(ordered[j]) {
      assert LayerKeyOf(sorted[i]) != LayerKeyOf(sorted[j]);
    }
    forall i | 0 <= i < |ordered| ensures DistinctKeys(ordered[i].conditions, IdKey) {
      assert sorted[i] in layers;
      var j := IndexOf(layers, sorted[i]);
      SortProps(sorted[i].conditions, ConditionOrder);
      DistinctKeysOfPermutation(sorted[i].conditions, ordered[i].conditions, IdKey);
    }
  }

  /** The reported list is strictly increasing in the issue order: no ties are left to chance. */
  lemma {:induction false} IssuesStrictlySorted(context: ProjectContext, parameters: seq<ParameterDefinition>,
      layers: seq<LayerInput>, rules: seq<Rule>)
    requires DistinctIds(layers) && Evaluate(context, parameters, layers, rules).Ok?
    ensures StrictlySorted(Evaluate(context, parameters, layers, rules).value,
      IssueOrder(OrderLayers(layers), PrepareAll(parameters).value))
  {
    hide PrepareAll, OrderLayers, SortBy, StandaloneIssues, RelationIssues, IssueKey, DistinctIds;
    var ps, ls, rs := PrepareAll(parameters).value, OrderLayers(layers), SortBy(rules, RuleOrder);
    PrepareAllDistinct(parameters);
    OrderLayersDistinct(layers);
    SortProps(rules, RuleOrder);
    DistinctKeysOfPermutation(rules, rs, RuleCodeKey);
    AllDistinct(context, ps, ls, rs);
    SortProps(StandaloneIssues(ps, ls) + RelationIssues(context, ps, ls, rs).value, IssueOrder(ls, ps));
  }

  // ---------------------------------------------------------------- equivalent definitions

  predicate SameFilter(a: seq<string>, b: seq<string>) {
    (|a| == 0 <==> |b| == 0) && (forall x :: x in a ==> x in b) && (forall x :: x in b ==> x in a)
  }

  predicate SameScope(a: Scope, b: Scope) {
    && SameFilter(a.lineIds, b.lineIds) && SameFilter(a.processIds, b.processIds) && SameFilter(a.layerIds, b.layerIds)
    && SameFilter(a.stepSeqs, b.stepSeqs) && SameFilter(a.eqpTypes, b.eqpTypes) && SameFilter(a.areaNames, b.areaNames)
  }

  /** The literal of a required-if rule as evaluation sees it. */
  function Literal(spec: Spec, ps: seq<Prepared>): Result<Option<string>, ConfigurationError> {
    if spec.PriorPor? || Find(ps, spec.whenCode).None? then Ok(None)
    else CanonicalTyped(Find(ps, spec.whenCode).value.valueType, Some(spec.equals))
  }

  predicate SameSpec(a: Spec, b: Spec, ps: seq<Prepared>) {
    && a.schemaVersion == b.schemaVersion
    && Literal(a, ps) == Literal(b, ps)
    && match (a, b)
       case (RequiredIf(w, _, r, _), RequiredIf(w', _, r', _)) => w == w' && r == r'
       case (PriorPor(s, c, _), PriorPor(s', c', _)) => s == s' && c == c'
       case _ => false
  }

  /** Rules that evaluation cannot tell apart. */
  predicate SameRule(a: Rule, b: Rule, ps: seq<Prepared>) {
    a.code == b.code && a.version == b.version && a.severity == b.severity && SameScope(a.scope, b.scope)
      && SameSpec(a.spec, b.spec, ps)
  }

  predicate SameCheck(a: Check, b: Check) {
    && a.rule.code == b.rule.code && a.rule.version == b.rule.version && a.rule.severity == b.rule.severity
    && SameScope(a.rule.scope, b.rule.scope)
    && match (a, b)
       case (RequiredCheck(r, t, e), RequiredCheck(r', t', e')) =>
         t == t' && e == e' && r.spec.RequiredIf? && r'.spec.RequiredIf? && r.spec.whenCode == r'.spec.whenCode
           && r.spec.requiredCode == r'.spec.requiredCode
       case (PriorCheck(r, t), PriorCheck(r', t')) =>
         t == t' && r.spec.PriorPor? && r'.spec.PriorPor? && r.spec.sourceCode == r'.spec.sourceCode
           && r.spec.candidateCode == r'.spec.candidateCode
       case _ => false
  }

  lemma {:induction false} SameRuleResolves(a: Rule, b: Rule, ps: seq<Prepared>)
    requires SameRule(a, b, ps)
    ensures ResolveRule(a, ps).Ok? <==> ResolveRule(b, ps).Ok?
    ensures ResolveRule(a, ps).Ok? ==> SameCheck(ResolveRule(a, ps).value, ResolveRule(b, ps).value)
  {
    hide Find, CanonicalTyped, SameScope;
  }

  lemma {:induction false} SameCheckIssue(a: Check, b: Check, ls: seq<LayerInput>, rank: nat, c: ConditionInput)
    requires rank < |ls| && WellFormedCheck(a) && WellFormedCheck(b) && SameCheck(a, b)
    ensures RuleIssue(a, ls, rank, c) == RuleIssue(b, ls, rank, c)
  {
    hide StoredTyped, CarriedBefore, Lookup, IntText;
    assert AppliesToLayer(a.rule.scope, ls[rank]) == AppliesToLayer(b.rule.scope, ls[rank]);
  }

  lemma {:induction false} SameCheckIssuesIn(a: Check, b: Check, ls: seq<LayerInput>, rank: nat,
      cs: seq<ConditionInput>)
    requires rank < |ls| && WellFormedCheck(a) && WellFormedCheck(b) && SameCheck(a, b)
    ensures RuleIssuesIn(a, ls, rank, cs) == RuleIssuesIn(b, ls, rank, cs)
  {
    hide RuleIssue, SameCheck;
    if |cs| > 0 {
      SameCheckIssuesIn(a, b, ls, rank, cs[..|cs| - 1]);
      SameCheckIssue(a, b, ls, rank, cs[|cs| - 1]);
    }
  }

  lemma {:induction false} SameCheckIssues(a: Check, b: Check, ls: seq<LayerInput>, n: nat)
    requires n <= |ls| && WellFormedCheck(a) && WellFormedCheck(b) && SameCheck(a, b)
    ensures RuleIssues(a, ls, n) == RuleIssues(b, ls, n)
  {
    hide RuleIssuesIn, SameCheck;
    if n > 0 {
      SameCheckIssues(a, b, ls, n - 1);
      SameCheckIssuesIn(a, b, ls, n - 1, ls[n - 1].conditions);
    }
  }

  /** Rules that evaluation in this context cannot tell apart: the body matters only when the rule applies. */
  predicate SameRuleFor(context: ProjectContext, a: Rule, b: Rule, ps: seq<Prepared>) {
    a.code == b.code && a.version == b.version && SameScope(a.scope, b.scope)
      && (AppliesToProject(a.scope, context) ==> SameRule(a, b, ps))
  }

  lemma {:induction false} SameScopeApplies(context: ProjectContext, a: Scope, b: Scope)
    requires SameScope(a, b)
    ensures AppliesToProject(a, context) == AppliesToProject(b, context)
  {
  }

  lemma {:induction false} SameRulesIssues(context: ProjectContext, ps: seq<Prepared>, ls: seq<LayerInput>,
      a: seq<Rule>, b: seq<Rule>)
    requires |a| == |b| && forall i :: 0 <= i < |a| ==> SameRuleFor(context, a[i], b[i], ps)
    ensures RelationIssues(context, ps, ls, a) == RelationIssues(context, ps, ls, b)
  {
    hide ResolveRule, RuleIssues, SameSpec, SameScope, AppliesToProject;
    var n := |a| - 1;
    if n >= 0 {
      SameRulesIssues(context, ps, ls, a[..n], b[..n]);
      assert SameRuleFor(context, a[n], b[n], ps);
      SameScopeApplies(context, a[n].scope, b[n].scope);
      if AppliesToProject(a[n].scope, context) {
        SameRuleResolves(a[n], b[n], ps);
        var ra, rb := ResolveRule(a[n], ps), ResolveRule(b[n], ps);
        OnlyError(ra);
        OnlyError(rb);
        if ra.Ok? { SameCheckIssues(ra.value, rb.value, ls, |ls|); }
      }
    }
  }

  /** Evaluation depends only on the prepared parameters, the ordered layers and the rules up to `SameRuleFor`. */
  lemma {:induction false} EvaluateCongruence(context: ProjectContext, ps: seq<ParameterDefinition>,
      ps': seq<ParameterDefinition>,
      layers: seq<LayerInput>, rules: seq<Rule>, rules': seq<Rule>)
    requires PrepareAll(ps) == PrepareAll(ps')
    requires |rules| == |rules'|
    requires PrepareAll(ps).Ok? ==> forall i :: 0 <= i < |rules| ==>
      SameRuleFor(context, rules[i], rules'[i], PrepareAll(ps).value)
    ensures Evaluate(context, ps, layers, rules) == Evaluate(context, ps', layers, rules')
  {
    hide PrepareAll, OrderLayers, SortBy, SameScope, SameSpec, RelationIssues, StandaloneIssues, IssueKey, SameRule,
         AppliesToProject;
    if PrepareAll(ps).Ok? {
      var p := PrepareAll(ps).value;
      var related := (a: Rule, b: Rule) => SameRuleFor(context, a, b, p);
      assert Pointwise(rules, rules', RuleOrder, related);
      SortPointwise(rules, rules', RuleOrder, related);
      var s, s' := SortBy(rules, RuleOrder), SortBy(rules', RuleOrder);
      assert forall i :: 0 <= i < |s| ==> related(s[i], s'[i]);
      SameRulesIssues(context, p, OrderLayers(layers), s, s');
      assert forall i :: 0 <= i < |rules| ==> RuleCodeKey(rules[i]) == RuleCodeKey(rules'[i]);
    }
  }
}
