/**
 * Validation results do not depend on the order in which parameters, choices, layers,
 * conditions, rules or scope entries are listed.
 */
module ValidationOrder {
  import opened Results
  import opened Ordering
  import opened Validation
  import opened ValidationLaws

  /** `ys` lists the elements of `xs` in some order, each up to `same`. */
  ghost predicate Rearranged<T(!new)>(xs: seq<T>, ys: seq<T>, same: (T, T) -> bool) {
    exists mid :: RearrangedVia(xs, mid, ys, same)
  }

  ghost predicate RearrangedVia<T(!new)>(xs: seq<T>, mid: seq<T>, ys: seq<T>, same: (T, T) -> bool) {
    multiset(xs) == multiset(mid) && |mid| == |ys| && forall i :: 0 <= i < |ys| ==> same(mid[i], ys[i])
  }

  /** The same parameter with its choices listed in some order. */
  predicate SameChoices(p: ParameterDefinition, q: ParameterDefinition) {
    p == q.(choices := p.choices) && multiset(p.choices) == multiset(q.choices)
  }

  /** The same layer with its conditions listed in some order. */
  predicate SameRows(l: LayerInput, m: LayerInput) {
    l == m.(conditions := l.conditions) && multiset(l.conditions) == multiset(m.conditions)
  }

  predicate SameEntries(a: Scope, b: Scope) {
    && multiset(a.lineIds) == multiset(b.lineIds) && multiset(a.processIds) == multiset(b.processIds)
    && multiset(a.layerIds) == multiset(b.layerIds) && multiset(a.stepSeqs) == multiset(b.stepSeqs)
    && multiset(a.eqpTypes) == multiset(b.eqpTypes) && multiset(a.areaNames) == multiset(b.areaNames)
  }

  /** The same rule with its scope entries listed in some order. */
  predicate SameFilters(r: Rule, s: Rule) {
    r == s.(scope := r.scope) && SameEntries(r.scope, s.scope)
  }

  // ---------------------------------------------------------------- choices

  function ChoiceKey(c: ChoiceDefinition): Key { [Txt(c.code)] }

  function ChoiceCodes(choices: seq<ChoiceDefinition>): set<string> {
    if |choices| == 0 then {} else ChoiceCodes(choices[..|choices| - 1]) + {choices[|choices| - 1].code}
  }

  lemma {:induction false} ChoiceMapDomain(choices: seq<ChoiceDefinition>)
    ensures ChoiceMap(choices).Ok? ==> ChoiceMap(choices).value.Keys == ChoiceCodes(choices)
    ensures ChoiceMap(choices).Ok? ==> forall i :: 0 <= i < |choices| ==>
      choices[i].code in ChoiceMap(choices).value && ChoiceMap(choices).value[choices[i].code] == choices[i].isActive
  {
    if |choices| > 0 { ChoiceMapDomain(choices[..|choices| - 1]); }
  }

  lemma {:induction false} ChoiceCodesMember(choices: seq<ChoiceDefinition>, code: string)
    ensures code in ChoiceCodes(choices) <==> exists i :: 0 <= i < |choices| && choices[i].code == code
  {
    var n := |choices| - 1;
    if n >= 0 {
      ChoiceCodesMember(choices[..n], code);
      assert choices == choices[..n] + [choices[n]];
    }
  }

  lemma {:induction false} ChoiceMapAccepts(choices: seq<ChoiceDefinition>)
    ensures ChoiceMap(choices).Ok? <==> DistinctKeys(choices, ChoiceKey)
  {
    var n := |choices| - 1;
    if n >= 0 {
      var init := choices[..n];
      ChoiceMapAccepts(init);
      ChoiceMapDomain(init);
      ChoiceCodesMember(init, choices[n].code);
      if DistinctKeys(choices, ChoiceKey) {
        forall i | 0 <= i < n ensures init[i].code != choices[n].code {
          assert ChoiceKey(choices[i]) != ChoiceKey(choices[n]);
        }
      }
      if ChoiceMap(choices).Ok? {
        forall i | 0 <= i < n ensures ChoiceKey(init[i]) != ChoiceKey(choices[n]) {
          assert init[i].code in ChoiceMap(init).value;
        }
        DistinctAppend(init, choices[n], ChoiceKey);
        assert init + [choices[n]] == choices;
      }
    }
  }

  lemma {:induction false} ChoiceMapRearranged(a: seq<ChoiceDefinition>, b: seq<ChoiceDefinition>)
    requires multiset(a) == multiset(b)
    ensures ChoiceMap(a) == ChoiceMap(b)
  {
    hide ChoiceMap;
    OnlyError(ChoiceMap(a));
    OnlyError(ChoiceMap(b));
    ChoiceMapAccepts(a);
    ChoiceMapAccepts(b);
    if DistinctKeys(a, ChoiceKey) { DistinctKeysOfPermutation(a, b, ChoiceKey); }
    if DistinctKeys(b, ChoiceKey) { DistinctKeysOfPermutation(b, a, ChoiceKey); }
    if ChoiceMap(a).Ok? {
      SameMembers(a, b);
      ChoiceMapDomain(a);
      ChoiceMapDomain(b);
      var m, n := ChoiceMap(a).value, ChoiceMap(b).value;
      forall code ensures code in m <==> code in n {
        ChoiceCodesMember(a, code);
        ChoiceCodesMember(b, code);
        ChoiceCodesAgree(a, b, code);
        ChoiceCodesAgree(b, a, code);
      }
      forall code | code in m ensures m[code] == n[code] {
        ChoiceCodesMember(a, code);
        var i :| 0 <= i < |a| && a[i].code == code;
        assert a[i] in b;
        var j := IndexOf(b, a[i]);
      }
      assert m == n;
    }
  }

  lemma {:induction false} ChoiceCodesAgree(a: seq<ChoiceDefinition>, b: seq<ChoiceDefinition>, code: string)
    requires forall x :: x in a ==> x in b
    ensures code in ChoiceCodes(a) ==> code in ChoiceCodes(b)
  {
    hide ChoiceCodes;
    ChoiceCodesMember(a, code);
    ChoiceCodesMember(b, code);
    if code in ChoiceCodes(a) {
      var i :| 0 <= i < |a| && a[i].code == code;
      assert a[i] in b;
      var j := IndexOf(b, a[i]);
      assert b[j].code == code;
    }
  }

  // ---------------------------------------------------------------- parameters

  lemma {:induction false} PrepareIgnoresChoiceOrder(p: ParameterDefinition, q: ParameterDefinition)
    requires SameChoices(p, q)
    ensures Prepare(p) == Prepare(q)
  {
    ChoiceMapRearranged(p.choices, q.choices);
    SameMembers(p.choices, q.choices);
  }

  lemma {:induction false} PrepareEachAccepts(ps: seq<ParameterDefinition>)
    ensures PrepareEach(ps).Ok? <==> forall p :: p in ps ==> Prepare(p).Ok?
  {
    hide Prepare;
    var n := |ps| - 1;
    if n >= 0 {
      PrepareEachAccepts(ps[..n]);
      assert ps == ps[..n] + [ps[n]];
    }
  }

  lemma {:induction false} PrepareEachMembers(ps: seq<ParameterDefinition>, x: Prepared)
    requires PrepareEach(ps).Ok?
    ensures x in PrepareEach(ps).value <==> exists p :: p in ps && Prepare(p) == Ok(x)
  {
    hide Prepare;
    var n := |ps| - 1;
    if n >= 0 {
      PrepareEachMembers(ps[..n], x);
      assert ps == ps[..n] + [ps[n]];
    }
  }

  lemma {:induction false} PrepareEachDistinct(ps: seq<ParameterDefinition>)
    requires PrepareEach(ps).Ok? && DistinctKeys(ps, CodeKey)
    ensures DistinctKeys(PrepareEach(ps).value, PreparedOrder)
  {
    hide PrepareEach;
    PrepareEachCodes(ps);
    var each := PrepareEach(ps).value;
    forall i, j | 0 <= i < j < |each| ensures PreparedOrder(each[i]) != PreparedOrder(each[j]) {
      assert CodeKey(ps[i]) != CodeKey(ps[j]);
      assert PreparedOrder(each[i])[1] == Txt(ps[i].code) && PreparedOrder(each[j])[1] == Txt(ps[j].code);
    }
  }

  lemma {:induction false} PrepareAllShuffled(ps: seq<ParameterDefinition>, qs: seq<ParameterDefinition>)
    requires multiset(ps) == multiset(qs)
    ensures PrepareAll(ps) == PrepareAll(qs)
  {
    hide PrepareEach, SortBy, Prepare;
    OnlyError(PrepareAll(ps));
    OnlyError(PrepareAll(qs));
    if DistinctKeys(qs, CodeKey) { DistinctKeysOfPermutation(qs, ps, CodeKey); }
    if DistinctKeys(ps, CodeKey) {
      DistinctKeysOfPermutation(ps, qs, CodeKey);
      SameMembers(ps, qs);
      PrepareEachAccepts(ps);
      PrepareEachAccepts(qs);
      if PrepareEach(ps).Ok? {
        var a, b := PrepareEach(ps).value, PrepareEach(qs).value;
        PrepareEachDistinct(ps);
        PrepareEachDistinct(qs);
        SortProps(a, PreparedOrder);
        SortProps(b, PreparedOrder);
        forall x ensures x in SortBy(a, PreparedOrder) <==> x in SortBy(b, PreparedOrder) {
          PrepareEachMembers(ps, x);
          PrepareEachMembers(qs, x);
        }
        StrictlySortedUnique(SortBy(a, PreparedOrder), SortBy(b, PreparedOrder), PreparedOrder);
      }
    }
  }

  lemma {:induction false} PrepareEachPointwise(ps: seq<ParameterDefinition>, qs: seq<ParameterDefinition>)
    requires |ps| == |qs| && forall i :: 0 <= i < |ps| ==> Prepare(ps[i]) == Prepare(qs[i])
    ensures PrepareEach(ps) == PrepareEach(qs)
  {
    hide Prepare;
    var n := |ps| - 1;
    if n >= 0 { PrepareEachPointwise(ps[..n], qs[..n]); }
  }

  /** Parameters that prepare alike, position by position, prepare alike together. */
  lemma {:induction false} PrepareAllPointwise(ps: seq<ParameterDefinition>, qs: seq<ParameterDefinition>)
    requires |ps| == |qs| && forall i :: 0 <= i < |ps| ==> Prepare(ps[i]) == Prepare(qs[i]) && ps[i].code == qs[i].code
    ensures PrepareAll(ps) == PrepareAll(qs)
  {
    hide PrepareEach, Prepare;
    PrepareEachPointwise(ps, qs);
    assert forall i :: 0 <= i < |ps| ==> CodeKey(ps[i]) == CodeKey(qs[i]);
  }

  lemma {:induction false} PrepareAllRearranged(ps: seq<ParameterDefinition>, qs: seq<ParameterDefinition>)
    requires Rearranged(ps, qs, SameChoices)
    ensures PrepareAll(ps) == PrepareAll(qs)
  {
    hide PrepareAll, Prepare;
    var mid: seq<ParameterDefinition> :| RearrangedVia(ps, mid, qs, SameChoices);
    PrepareAllShuffled(ps, mid);
    forall i | 0 <= i < |mid| ensures Prepare(mid[i]) == Prepare(qs[i]) && mid[i].code == qs[i].code {
      assert SameChoices(mid[i], qs[i]);
      PrepareIgnoresChoiceOrder(mid[i], qs[i]);
    }
    PrepareAllPointwise(mid, qs);
  }

  // ---------------------------------------------------------------- layers

  lemma {:induction false} OrderConditionsRearranged(l: LayerInput, m: LayerInput)
    requires SameRows(l, m) && DistinctKeys(l.conditions, IdKey)
    ensures OrderConditions(l) == OrderConditions(m)
  {
    hide SortBy;
    forall i, j | 0 <= i < j < |l.conditions|
      ensures ConditionOrder(l.conditions[i]) != ConditionOrder(l.conditions[j]) {
      assert IdKey(l.conditions[i]) != IdKey(l.conditions[j]);
      assert ConditionOrder(l.conditions[i])[1] == IdKey(l.conditions[i])[0];
      assert ConditionOrder(l.conditions[j])[1] == IdKey(l.conditions[j])[0];
    }
    SortPermutation(l.conditions, m.conditions, ConditionOrder);
  }

  lemma {:induction false} OrderLayersRearranged(ls: seq<LayerInput>, ms: seq<LayerInput>)
    requires Rearranged(ls, ms, SameRows) && DistinctIds(ls) && DistinctKeys(ls, LayerKeyOf)
    ensures OrderLayers(ls) == OrderLayers(ms)
  {
    hide SortBy, OrderConditions;
    var mid: seq<LayerInput> :| RearrangedVia(ls, mid, ms, SameRows);
    forall i, j | 0 <= i < j < |ls| ensures LayerOrder(ls[i]) != LayerOrder(ls[j]) {
      assert LayerKeyOf(ls[i]) != LayerKeyOf(ls[j]);
      assert LayerOrder(ls[i])[1] == LayerKeyOf(ls[i])[0] && LayerOrder(ls[j])[1] == LayerKeyOf(ls[j])[0];
    }
    SortPermutation(ls, mid, LayerOrder);
    assert Pointwise(mid, ms, LayerOrder, SameRows);
    SortPointwise(mid, ms, LayerOrder, SameRows);
    SortProps(ls, LayerOrder);
    var a, b := SortBy(ls, LayerOrder), SortBy(ms, LayerOrder);
    forall i | 0 <= i < |a| ensures OrderConditions(a[i]) == OrderConditions(b[i]) {
      assert a[i] in ls;
      var j := IndexOf(ls, a[i]);
      OrderConditionsRearranged(a[i], b[i]);
    }
    assert OrderEach(a) == OrderEach(b);
  }

  lemma {:induction false} LayerKeysRearranged(ls: seq<LayerInput>, ms: seq<LayerInput>)
    requires Rearranged(ls, ms, SameRows)
    ensures DistinctKeys(ls, LayerKeyOf) <==> DistinctKeys(ms, LayerKeyOf)
  {
    var mid: seq<LayerInput> :| RearrangedVia(ls, mid, ms, SameRows);
    assert forall i :: 0 <= i < |mid| ==> SameRows(mid[i], ms[i]) && LayerKeyOf(mid[i]) == LayerKeyOf(ms[i]);
    if DistinctKeys(ls, LayerKeyOf) { DistinctKeysOfPermutation(ls, mid, LayerKeyOf); }
    if DistinctKeys(mid, LayerKeyOf) { DistinctKeysOfPermutation(mid, ls, LayerKeyOf); }
  }

  // ---------------------------------------------------------------- rules

  lemma {:induction false} SameFilterOfPermutation(a: seq<string>, b: seq<string>)
    requires multiset(a) == multiset(b)
    ensures SameFilter(a, b)
  {
    SameMembers(a, b);
  }

  lemma {:induction false} SameFiltersSameRule(r: Rule, s: Rule, ps: seq<Prepared>)
    requires SameFilters(r, s)
    ensures SameRule(r, s, ps)
  {
    hide Literal, SameFilter;
    SameFilterOfPermutation(r.scope.lineIds, s.scope.lineIds);
    SameFilterOfPermutation(r.scope.processIds, s.scope.processIds);
    SameFilterOfPermutation(r.scope.layerIds, s.scope.layerIds);
    SameFilterOfPermutation(r.scope.stepSeqs, s.scope.stepSeqs);
    SameFilterOfPermutation(r.scope.eqpTypes, s.scope.eqpTypes);
    SameFilterOfPermutation(r.scope.areaNames, s.scope.areaNames);
  }

  /** Evaluation of shuffled rules: the rule order is recovered by sorting. */
  lemma {:induction false} EvaluateShuffledRules(context: ProjectContext, ps: seq<ParameterDefinition>,
      ls: seq<LayerInput>, rules: seq<Rule>, mid: seq<Rule>)
    requires multiset(rules) == multiset(mid)
    ensures Evaluate(context, ps, ls, rules) == Evaluate(context, ps, ls, mid)
  {
    hide PrepareAll, OrderLayers, SortBy, EvaluateOrdered;
    if DistinctKeys(mid, RuleCodeKey) { DistinctKeysOfPermutation(mid, rules, RuleCodeKey); }
    if DistinctKeys(rules, RuleCodeKey) {
      DistinctKeysOfPermutation(rules, mid, RuleCodeKey);
      forall i, j | 0 <= i < j < |rules| ensures RuleOrder(rules[i]) != RuleOrder(rules[j]) {
        assert RuleCodeKey(rules[i]) != RuleCodeKey(rules[j]);
        assert RuleOrder(rules[i])[0] == RuleCodeKey(rules[i])[0] && RuleOrder(rules[j])[0] == RuleCodeKey(rules[j])[0];
      }
      SortPermutation(rules, mid, RuleOrder);
    }
  }

  /**
   * Listing parameters, choices, layers, conditions, rules or scope entries in another order
   * changes nothing: same issues in the same order, or the same failure.
   */
  lemma {:induction false} EvaluationIgnoresInputOrder(context: ProjectContext,
      ps: seq<ParameterDefinition>, ps': seq<ParameterDefinition>,
      ls: seq<LayerInput>, ls': seq<LayerInput>,
      rules: seq<Rule>, rules': seq<Rule>)
    requires Rearranged(ps, ps', SameChoices)
    requires Rearranged(ls, ls', SameRows) && DistinctIds(ls)
    requires Rearranged(rules, rules', SameFilters)
    ensures Evaluate(context, ps, ls, rules) == Evaluate(context, ps', ls', rules')
  {
    hide PrepareAll, SameFilters, SameScope, SameSpec, Evaluate;
    var mid: seq<Rule> :| RearrangedVia(rules, mid, rules', SameFilters);
    PrepareAllRearranged(ps, ps');
    EvaluateShuffledRules(context, ps, ls, rules, mid);
    if PrepareAll(ps).Ok? {
      forall i | 0 <= i < |mid| ensures SameRuleFor(context, mid[i], rules'[i], PrepareAll(ps).value) {
        assert SameFilters(mid[i], rules'[i]);
        SameFiltersSameRule(mid[i], rules'[i], PrepareAll(ps).value);
      }
    }
    EvaluateCongruence(context, ps, ps', ls, mid, rules');
    EvaluateRearrangedLayers(context, ps', ls, ls', rules');
  }

  lemma {:induction false} EvaluateRearrangedLayers(context: ProjectContext, ps: seq<ParameterDefinition>,
      ls: seq<LayerInput>, ls': seq<LayerInput>, rules: seq<Rule>)
    requires Rearranged(ls, ls', SameRows) && DistinctIds(ls)
    ensures Evaluate(context, ps, ls, rules) == Evaluate(context, ps, ls', rules)
  {
    hide PrepareAll, OrderLayers, EvaluateOrdered, SortBy, DistinctKeys;
    LayerKeysRearranged(ls, ls');
    if DistinctKeys(ls, LayerKeyOf) { OrderLayersRearranged(ls, ls'); }
  }
}
