/**
 * What every run of the review workflow keeps: approved data is valid under its frozen
 * definitions, and revision chains are well formed.
 */
module WorkflowLaws {
  import opened Results
  import opened Ordering
  import opened Validation
  import opened ValidationLaws
  import opened ValidationOrder
  import opened DefinitionHash
  import opened Freezing
  import opened Workflow
  import Decimals

  // ---------------------------------------------------------------- the captured snapshot means the loaded basis

  lemma {:induction false} BasisDefinitionsAt(rows: seq<ParameterRow>, sets: seq<ChoiceSetRow>)
    requires BasisDefinitions(rows, sets).Ok?
    ensures var ds := BasisDefinitions(rows, sets).value;
      |ds| == |rows| && forall i :: 0 <= i < |rows| ==> BasisDefinition(rows[i], sets) == Ok(ds[i])
  {
    hide BasisDefinition;
    if |rows| > 0 { BasisDefinitionsAt(rows[1..], sets); }
  }

  lemma {:induction false} CanonicalBoundAgain(raw: Option<string>)
    requires CanonicalBound(raw).Ok? && CanonicalBound(CanonicalBound(raw).value).Ok?
    ensures CanonicalBound(CanonicalBound(raw).value) == CanonicalBound(raw)
    ensures CanonicalBound(raw).value.Some? <==> raw.Some?
  {
    hide Decimals.Normalize;
    if raw.Some? {
      Decimals.NormalizePreservesValue(raw.value);
      Decimals.RenormalizeCanonical(Decimals.Normalize(raw.value).value);
    }
  }

  lemma {:induction false} PreparedBounds(p: ParameterDefinition)
    requires Prepare(p).Ok?
    ensures p.valueType.Number? ==> CanonicalBound(p.minValue).Ok? && CanonicalBound(p.maxValue).Ok?
    ensures !p.valueType.Number? ==> p.minValue.None? && p.maxValue.None?
  {
    hide ChoiceMap, CanonicalBound;
  }

  /** The loaded definition and the one the snapshot builder derives from the same row prepare alike. */
  lemma {:induction false} RowDefinitionsAgree(row: ParameterRow, sets: seq<ChoiceSetRow>)
    requires BasisDefinition(row, sets).Ok? && Prepare(BasisDefinition(row, sets).value).Ok?
    ensures Prepare(BasisDefinition(row, sets).value) == Prepare(LiveDefinition(TypedRow(row), sets))
    ensures LiveDefinition(TypedRow(row), sets).code == row.code == BasisDefinition(row, sets).value.code
  {
    hide Prepare, CanonicalBound, SetByCode, Choices;
    var d, l := BasisDefinition(row, sets).value, LiveDefinition(TypedRow(row), sets);
    PreparedBounds(d);
    AbsentBound();
    if row.valueType.Number? {
      CanonicalBoundAgain(row.minValue);
      CanonicalBoundAgain(row.maxValue);
    }
    PrepareCongruence(d, l);
  }

  lemma {:induction false} AbsentBound()
    ensures CanonicalBound(None) == Ok(None)
  {
  }

  lemma {:induction false} ActiveRows(rows: seq<ParameterRow>)
    ensures forall i :: 0 <= i < |ActiveParameters(rows)| ==> ActiveParameters(rows)[i].isActive
  {
    if |rows| > 0 { ActiveRows(rows[1..]); }
  }

  lemma {:induction false} AllActive(rows: seq<ParameterRow>)
    requires forall i :: 0 <= i < |rows| ==> rows[i].isActive
    ensures ActiveParameters(rows) == rows
  {
    if |rows| > 0 {
      AllActive(rows[1..]);
      assert rows == [rows[0]] + rows[1..];
    }
  }

  lemma {:induction false} LiveInsert(row: ParameterRow, rows: seq<ParameterRow>, sets: seq<ChoiceSetRow>)
    ensures multiset(LiveDefinitionsOf(Insert(row, rows, ParameterOrder), sets)) ==
      multiset{LiveDefinition(row, sets)} + multiset(LiveDefinitionsOf(rows, sets))
  {
    hide KeyLess, LiveDefinition;
    if |rows| > 0 && KeyLess(ParameterOrder(rows[0]), ParameterOrder(row)) {
      var t := Insert(row, rows[1..], ParameterOrder);
      LiveInsert(row, rows[1..], sets);
      assert ([rows[0]] + t)[1..] == t;
    } else {
      assert ([row] + rows)[1..] == rows;
    }
  }

  lemma {:induction false} LiveSorted(rows: seq<ParameterRow>, sets: seq<ChoiceSetRow>)
    ensures multiset(LiveDefinitionsOf(SortBy(rows, ParameterOrder), sets)) == multiset(LiveDefinitionsOf(rows, sets))
  {
    hide Insert, LiveDefinition;
    if |rows| > 0 {
      LiveSorted(rows[1..], sets);
      LiveInsert(rows[0], SortBy(rows[1..], ParameterOrder), sets);
    }
  }

  lemma {:induction false} BasisPrepared(registry: Registry, id: nat, p: Project)
    requires LoadBasis(registry, id, p).Ok?
    ensures var b := LoadBasis(registry, id, p).value;
      && b.context == ContextOf(id, p)
      && PrepareAll(b.definitions).Ok?
      && BasisDefinitions(b.rows, registry.choiceSets) == Ok(b.definitions)
      && b.rows == ActiveParameters(registry.parameters)
      && ApplicableRules(registry.rules, b.context, b.definitions) == Ok(b.rules)
  {
    hide BasisDefinitions, ApplicableRules, CanonicalPayload, PrepareAll, ActiveParameters, EvaluateOrdered;
  }

  /** The snapshot's live definitions prepare exactly like the loaded ones. */
  lemma {:induction false} LiveMatchesBasis(registry: Registry, id: nat, p: Project)
    requires LoadBasis(registry, id, p).Ok?
    ensures var b := LoadBasis(registry, id, p).value;
      PrepareAll(LiveDefinitions(SnapshotRows(registry, b))) == PrepareAll(b.definitions)
  {
    hide LoadBasis, PrepareAll, Prepare, BasisDefinition, BasisDefinitions, LiveDefinition, SortBy, TypedRow,
         PrepareEach;
    var b := LoadBasis(registry, id, p).value;
    var sets, typed := registry.choiceSets, TypedRows(b.rows);
    var live := LiveDefinitionsOf(typed, sets);
    BasisPrepared(registry, id, p);
    BasisDefinitionsAt(b.rows, sets);
    PreparedEach(b.definitions);
    PrepareEachAccepts(b.definitions);
    forall i | 0 <= i < |live|
      ensures Prepare(b.definitions[i]) == Prepare(live[i]) && b.definitions[i].code == live[i].code {
      assert b.definitions[i] in b.definitions;
      RowDefinitionsAgree(b.rows[i], sets);
    }
    PrepareAllPointwise(b.definitions, live);
    ActiveRows(registry.parameters);
    TypedKeepsActive(b.rows);
    AllActive(typed);
    LiveSorted(typed, sets);
    PrepareAllShuffled(LiveDefinitionsOf(SortBy(typed, ParameterOrder), sets), live);
  }

  lemma {:induction false} PreparedEach(ps: seq<ParameterDefinition>)
    requires PrepareAll(ps).Ok?
    ensures PrepareEach(ps).Ok?
  {
    hide PrepareEach, SortBy;
  }

  lemma {:induction false} TypedKeepsActive(rows: seq<ParameterRow>)
    requires forall i :: 0 <= i < |rows| ==> rows[i].isActive
    ensures forall i :: 0 <= i < |TypedRows(rows)| ==> TypedRows(rows)[i].isActive
  {
  }

  /** Literals of loaded rules are already canonical, so they survive freezing. */
  lemma {:induction false} ApplicableRulesCanonical(rows: seq<RuleRow>, context: ProjectContext,
      ps: seq<ParameterDefinition>, i: nat)
    requires ApplicableRules(rows, context, ps).Ok? && i < |ApplicableRules(rows, context, ps).value|
    ensures var r := ApplicableRules(rows, context, ps).value[i];
      r.spec.RequiredIf? ==> FindParameter(ps, r.spec.whenCode).Some? && exists literal ::
        CanonicalTyped(FindParameter(ps, r.spec.whenCode).value.valueType, Some(literal)) == Ok(Some(r.spec.equals))
  {
    hide CanonicalTyped, FindParameter, AppliesToProject, CanonicalScope, HasChoice;
    if !rows[0].isActive {
      ApplicableRulesCanonical(rows[1..], context, ps, i);
    } else {
      var first := AsSeq(ApplicableRule(rows[0].rule, context, ps).value);
      if i < |first| {
        var spec := rows[0].rule.spec;
        if spec.RequiredIf? {
          assert CanonicalTyped(FindParameter(ps, spec.whenCode).value.valueType, Some(spec.equals)) ==
            Ok(Some(first[i].spec.equals));
        }
      } else {
        ApplicableRulesCanonical(rows[1..], context, ps, i - |first|);
      }
    }
  }

  lemma {:induction false} CanonicalLiteralFits(t: ValueType, literal: string, canonical: string)
    requires CanonicalTyped(t, Some(literal)) == Ok(Some(canonical)) && t.Number?
    ensures !Decimals.FillsTheLimitBehindADot(Decimals.Split(Decimals.Strip(canonical)))
  {
    hide Decimals.Normalize;
    Decimals.NormalizePreservesValue(literal);
    Decimals.PartsDigitCount(canonical);
    Decimals.StripFixed(canonical);
  }

  lemma {:induction false} BasisLiteralsFit(registry: Registry, id: nat, p: Project)
    requires LoadBasis(registry, id, p).Ok?
    ensures var b := LoadBasis(registry, id, p).value; LiteralsFit(b.context, SnapshotRows(registry, b))
  {
    hide LoadBasis, PrepareAll, LiveDefinitions, CanonicalTyped, FindParameter, ApplicableRules, TypedRows,
         AppliesToProject, Find, Prepare, Decimals.FillsTheLimitBehindADot, Decimals.Split, Decimals.Strip;
    var b := LoadBasis(registry, id, p).value;
    var live := LiveDefinitions(SnapshotRows(registry, b));
    BasisPrepared(registry, id, p);
    LiveMatchesBasis(registry, id, p);
    forall i | 0 <= i < |b.rules| ensures LiteralFits(b.rules[i], live) {
      var spec := b.rules[i].spec;
      ApplicableRulesCanonical(registry.rules, b.context, b.definitions, i);
      if spec.RequiredIf? && FindParameter(live, spec.whenCode).Some? {
        PreparedOrigin(live, spec.whenCode);
        PreparedOrigin(b.definitions, spec.whenCode);
        PrepareType(FindParameter(live, spec.whenCode).value);
        PrepareType(FindParameter(b.definitions, spec.whenCode).value);
        var t := FindParameter(b.definitions, spec.whenCode).value.valueType;
        var literal :| CanonicalTyped(t, Some(literal)) == Ok(Some(spec.equals));
        if t.Number? { CanonicalLiteralFits(t, literal, spec.equals); }
      }
    }
  }

  /** On every sheet, the captured document evaluates like the basis it was captured from. */
  lemma {:induction false} BasisReplay(registry: Registry, id: nat, p: Project, layers: seq<LayerInput>)
    requires LoadBasis(registry, id, p).Ok? && Snapshot(SnapshotRows(registry, LoadBasis(registry, id, p).value)).Ok?
    ensures var b := LoadBasis(registry, id, p).value;
      var c := Snapshot(SnapshotRows(registry, b)).value.content;
      Evaluate(ContextOf(id, p), FrozenDefinitions(c), layers, FrozenRules(c)) ==
        Evaluate(b.context, b.definitions, layers, b.rules)
  {
    hide LoadBasis, PrepareAll, LiveDefinitions, Snapshot, Evaluate, LiteralsFit, FrozenDefinitions, TypedRows,
         SameRule;
    var b := LoadBasis(registry, id, p).value;
    var rows := SnapshotRows(registry, b);
    BasisPrepared(registry, id, p);
    BasisLiteralsFit(registry, id, p);
    LiveMatchesBasis(registry, id, p);
    ReplayPreservesEvaluation(b.context, rows, layers);
    if PrepareAll(b.definitions).Ok? {
      forall i | 0 <= i < |b.rules| ensures SameRuleFor(b.context, b.rules[i], b.rules[i],
        PrepareAll(b.definitions).value) {
        SameRuleReflexive(b.rules[i], PrepareAll(b.definitions).value);
      }
    }
    EvaluateCongruence(b.context, LiveDefinitions(rows), b.definitions, layers, b.rules, b.rules);
  }

  lemma {:induction false} SameRuleReflexive(r: Rule, ps: seq<Prepared>)
    ensures SameRule(r, r, ps) && SameScope(r.scope, r.scope)
  {
    hide Literal;
  }

  // ---------------------------------------------------------------- approved data is valid

  /** The project's rows pass validation under the frozen content, with one POR in each layer. */
  ghost predicate CleanUnder(id: nat, p: Project, c: Content) {
    && OnePorPerLayer(p.layers)
    && var r := Evaluate(ContextOf(id, p), FrozenDefinitions(c), LayerInputs(p), FrozenRules(c));
       r.Ok? && ErrorCount(r.value) == 0
  }

  ghost predicate ProjectClean(id: nat, p: Project) {
    && (p.status == Review ==> p.reviewBasisHash.Some? && CleanUnder(id, p, p.reviewBasisHash.value.content))
    && (p.status == Approved || p.status == Archived ==>
          && p.parameterSnapshot.Some?
          && p.parameterSnapshot.value.validationBasisHash == Digest(p.parameterSnapshot.value.content)
          && p.reviewBasisHash == Some(p.parameterSnapshot.value.validationBasisHash)
          && CleanUnder(id, p, p.parameterSnapshot.value.content))
  }

  ghost predicate StoreClean(s: Store) {
    forall id :: id in s.projects ==> ProjectClean(id, s.projects[id])
  }

  lemma {:induction false} CleanSameSheet(id: nat, p: Project, q: Project, c: Content)
    requires CleanUnder(id, p, c) && p.layers == q.layers && p.lineId == q.lineId && p.processId == q.processId
    ensures CleanUnder(id, q, c)
  {
    hide Evaluate, FrozenDefinitions, OrderLayers;
  }

  /** The capture of a basis whose evaluation had no error is clean. */
  lemma {:induction false} CleanCapture(registry: Registry, id: nat, p: Project)
    requires LoadBasis(registry, id, p).Ok? && Snapshot(SnapshotRows(registry, LoadBasis(registry, id, p).value)).Ok?
    requires OnePorPerLayer(p.layers)
    requires var b := LoadBasis(registry, id, p).value;
      var r := Evaluate(b.context, b.definitions, LayerInputs(p), b.rules);
      r.Ok? && ErrorCount(r.value) == 0
    ensures CleanUnder(id, p, Snapshot(SnapshotRows(registry, LoadBasis(registry, id, p).value)).value.content)
  {
    hide LoadBasis, Snapshot, Evaluate, FrozenDefinitions, LayerInputs, OnePorPerLayer;
    BasisReplay(registry, id, p, LayerInputs(p));
  }

  lemma {:induction false} CapturedDigest(rows: Rows)
    requires Snapshot(rows).Ok?
    ensures Snapshot(rows).value.validationBasisHash == Digest(Snapshot(rows).value.content)
  {
    hide Freeze, CanonicalPayload, LiveDefinitions;
  }

  lemma {:induction false} RequestReviewClean(registry: Registry, id: nat, p: Project)
    requires RequestReviewOf(registry, id, p).Ok?
    ensures ProjectClean(id, RequestReviewOf(registry, id, p).value)
  {
    hide LoadBasis, Snapshot, Evaluate, LayerInputs, CleanUnder, OnePorPerLayer;
    var b := LoadBasis(registry, id, p).value;
    CleanCapture(registry, id, p);
    CapturedDigest(SnapshotRows(registry, b));
    var q := RequestReviewOf(registry, id, p).value;
    CleanSameSheet(id, p, q, q.reviewBasisHash.value.content);
  }

  /** Approval is clean even when an unchanged digest lets it skip revalidation. */
  lemma {:induction false} ApproveClean(registry: Registry, id: nat, p: Project)
    requires p.status == Review && ProjectClean(id, p) && ApproveOf(registry, id, p).Ok?
    ensures ProjectClean(id, ApproveOf(registry, id, p).value)
  {
    hide LoadBasis, Snapshot, Evaluate, LayerInputs, CleanUnder, OnePorPerLayer;
    var b := LoadBasis(registry, id, p).value;
    var captured := Snapshot(SnapshotRows(registry, b)).value;
    CapturedDigest(SnapshotRows(registry, b));
    CleanHasPors(id, p, p.reviewBasisHash.value.content);
    if captured.validationBasisHash != p.reviewBasisHash.value { CleanCapture(registry, id, p); }
    CleanSameSheet(id, p, ApproveOf(registry, id, p).value, captured.content);
  }

  lemma {:induction false} CleanHasPors(id: nat, p: Project, c: Content)
    requires CleanUnder(id, p, c)
    ensures OnePorPerLayer(p.layers)
  {
    hide Evaluate, FrozenDefinitions, LayerInputs;
  }

  lemma {:induction false} TransitionClean(registry: Registry, id: nat, p: Project, action: ReviewAction,
      expected: Option<Status>)
    requires ProjectClean(id, p) && TransitionOf(registry, id, p, action, expected).Ok?
    ensures ProjectClean(id, TransitionOf(registry, id, p, action, expected).value)
  {
    hide RequestReviewOf, ApproveOf, CleanUnder;
    match action
    case RequestReview => RequestReviewClean(registry, id, p);
    case Approve => ApproveClean(registry, id, p);
    case Reject =>
    case ReturnToDraft =>
  }

  lemma {:induction false} ApplyClean(s: Store, a: Action)
    requires StoreClean(s) && Apply(s, a).Ok?
    ensures StoreClean(Apply(s, a).value)
  {
    hide TransitionOf, CleanUnder, ComputeProposal, CopyLayers, HasSuccessor, ActiveIdentityTaken;
    var t := Apply(s, a).value;
    if a.Transition? { TransitionClean(s.registry, a.id, s.projects[a.id], a.action, a.expected); }
    forall id | id in t.projects ensures ProjectClean(id, t.projects[id]) {
      if a.CreateRevision? && id == a.id && id != s.nextProjectId {
        var p := s.projects[id];
        assert p.status == Approved;
        CleanSameSheet(id, p, t.projects[id], p.parameterSnapshot.value.content);
      }
    }
  }

  /**
   * In every run of creations, draft edits, registry changes, reviews, approvals, rejections,
   * returns and revisions, each approved or archived project holds a frozen snapshot under which
   * its rows have no validation error, and each of its layers has exactly one POR.
   */
  lemma {:induction false} ApprovedProjectsAreValid(registry: Registry, actions: seq<Action>)
    ensures StoreClean(Run(EmptyStore(registry), actions))
  {
    hide ProjectClean, Apply;
    if |actions| > 0 {
      var before := actions[..|actions| - 1];
      ApprovedProjectsAreValid(registry, before);
      var s := Run(EmptyStore(registry), before);
      if Apply(s, actions[|actions| - 1]).Ok? { ApplyClean(s, actions[|actions| - 1]); }
    }
  }

  // ---------------------------------------------------------------- approved documents can be read back

  function ActiveRules(rows: seq<RuleRow>): seq<Rule> {
    if |rows| == 0 then [] else (if rows[0].isActive then [rows[0].rule] else []) + ActiveRules(rows[1..])
  }

  /** The registry rows that a snapshot can capture have texts and orders the frozen view accepts. */
  predicate RegistryPresentable(r: Registry) {
    Presentable(Rows(r.categories, r.parameters, r.choiceSets, ActiveRules(r.rules)))
  }

  lemma {:induction false} ActiveTwice(rows: seq<CategoryRow>)
    ensures ActiveCategories(ActiveCategories(rows)) == ActiveCategories(rows)
  {
    if |rows| > 0 {
      ActiveTwice(rows[1..]);
      var t := ActiveCategories(rows[1..]);
      if rows[0].isActive { assert ([rows[0]] + t)[1..] == t; } else { assert [] + t == t; }
    }
  }

  lemma {:induction false} TypedNeeds(rows: seq<ParameterRow>)
    ensures NeededSets(TypedRows(rows)) == NeededSets(rows)
  {
    if |rows| > 0 {
      TypedNeeds(rows[1..]);
      assert TypedRows(rows)[1..] == TypedRows(rows[1..]);
    }
  }

  lemma {:induction false} ApplicableFrom(rows: seq<RuleRow>, context: ProjectContext, ps: seq<ParameterDefinition>)
    requires ApplicableRules(rows, context, ps).Ok? && forall r :: r in ActiveRules(rows) ==> ValidRule(r)
    ensures forall r :: r in ApplicableRules(rows, context, ps).value ==> ValidRule(r)
  {
    hide CanonicalTyped, FindParameter, AppliesToProject, CanonicalScope, HasChoice;
    if |rows| > 0 {
      forall r | r in ActiveRules(rows[1..]) ensures ValidRule(r) { assert r in ActiveRules(rows); }
      ApplicableFrom(rows[1..], context, ps);
      if rows[0].isActive { assert rows[0].rule in ActiveRules(rows); }
    }
  }

  /** What is captured from a presentable registry is presentable. */
  lemma {:induction false} CaptureIsPresentable(registry: Registry, id: nat, p: Project)
    requires LoadBasis(registry, id, p).Ok? && RegistryPresentable(registry)
    ensures Presentable(SnapshotRows(registry, LoadBasis(registry, id, p).value))
  {
    hide LoadBasis, ApplicableRules, BasisDefinitions, ActiveRules, ActiveCategories, ActiveParameters, DistinctKeys,
         PresentableCategory, ValidRule, ValidSet, NeededSets, SetByCode;
    var b := LoadBasis(registry, id, p).value;
    BasisPrepared(registry, id, p);
    ActiveTwice(registry.categories);
    ActiveRows(registry.parameters);
    TypedKeepsActive(b.rows);
    AllActive(TypedRows(b.rows));
    TypedNeeds(b.rows);
    ApplicableFrom(registry.rules, b.context, b.definitions);
    var typed := TypedRows(b.rows);
    forall r | r in typed ensures PresentableParameter(r) {
      var i := IndexOf(typed, r);
      assert b.rows[i] in b.rows;
    }
  }

  predicate DocumentsAccepted(s: Store) {
    forall k: nat :: k in s.projects && s.projects[k].parameterSnapshot.Some? ==>
      Accepted(s.projects[k].parameterSnapshot.value)
  }

  /** The document of an approval is accepted by its reader exactly when the captured rows are presentable. */
  lemma {:induction false} ApprovalIsAccepted(registry: Registry, id: nat, p: Project)
    requires ApproveOf(registry, id, p).Ok?
    ensures var q := ApproveOf(registry, id, p).value;
      && LoadBasis(registry, id, p).Ok? && q.parameterSnapshot.Some?
      && (Accepted(q.parameterSnapshot.value) <==>
        Presentable(SnapshotRows(registry, LoadBasis(registry, id, p).value)))
  {
    hide LoadBasis, Snapshot, Evaluate, LayerInputs, Presentable, SnapshotRows;
    SnapshotIsAccepted(SnapshotRows(registry, LoadBasis(registry, id, p).value));
  }

  lemma {:induction false} ApplyKeepsAccepted(s: Store, a: Action)
    requires DocumentsAccepted(s) && RegistryPresentable(s.registry) && Apply(s, a).Ok?
    ensures DocumentsAccepted(Apply(s, a).value)
  {
    hide Accepted, RegistryPresentable, RequestReviewOf, ApproveOf, ComputeProposal, CopyLayers, HasSuccessor,
         ActiveIdentityTaken, RowIds, NextAfter, RowIdsUsable;
    if a.Transition? {
      TransitionSnapshot(s.registry, a.id, s.projects[a.id], a.action, a.expected);
      if a.action.Approve? {
        ApprovalIsAccepted(s.registry, a.id, s.projects[a.id]);
        CaptureIsPresentable(s.registry, a.id, s.projects[a.id]);
      }
    }
  }

  lemma {:induction false} TransitionSnapshot(registry: Registry, id: nat, p: Project, action: ReviewAction,
      expected: Option<Status>)
    requires TransitionOf(registry, id, p, action, expected).Ok?
    ensures if action.Approve? then TransitionOf(registry, id, p, action, expected) == ApproveOf(registry, id, p)
      else TransitionOf(registry, id, p, action, expected).value.parameterSnapshot == p.parameterSnapshot
  {
    hide LoadBasis, Snapshot, Evaluate, LayerInputs, OnePorPerLayer;
  }

  /** Each registry the run works with is presentable. */
  predicate PresentableRun(registry: Registry, actions: seq<Action>) {
    RegistryPresentable(registry) && forall i :: 0 <= i < |actions| && actions[i].ChangeRegistry? ==>
      RegistryPresentable(actions[i].registry)
  }

  /** In every run over presentable registries each frozen document can be read back, and yields its definitions. */
  lemma {:induction false} DocumentsReadBack(registry: Registry, actions: seq<Action>)
    requires PresentableRun(registry, actions)
    ensures var s := Run(EmptyStore(registry), actions); DocumentsAccepted(s) && RegistryPresentable(s.registry)
  {
    hide Apply, RegistryPresentable, Accepted;
    if |actions| > 0 {
      var before := actions[..|actions| - 1];
      DocumentsReadBack(registry, before);
      var s := Run(EmptyStore(registry), before);
      if Apply(s, actions[|actions| - 1]).Ok? {
        ApplyKeepsAccepted(s, actions[|actions| - 1]);
        RegistryAfter(s, actions[|actions| - 1]);
      }
    }
  }

  lemma {:induction false} RegistryAfter(s: Store, a: Action)
    requires Apply(s, a).Ok?
    ensures Apply(s, a).value.registry == if a.ChangeRegistry? then a.registry else s.registry
  {
    hide TransitionOf, ComputeProposal, CopyLayers, HasSuccessor, ActiveIdentityTaken, RowIds, NextAfter, RowIdsUsable;
  }

  // ---------------------------------------------------------------- approved projects are frozen

  /** Once approved, a project keeps its rows, identity and snapshot in every later store. */
  lemma {:induction false} ApprovedIsFrozen(s: Store, actions: seq<Action>, id: nat)
    requires id in s.projects && id < s.nextProjectId
    requires (s.projects[id].status == Approved || s.projects[id].status == Archived)
    ensures var t := Run(s, actions);
      && id in t.projects && s.nextProjectId <= t.nextProjectId
      && (t.projects[id].status == Approved || t.projects[id].status == Archived)
      && t.projects[id] == s.projects[id].(status := t.projects[id].status)
  {
    if |actions| > 0 {
      ApprovedIsFrozen(s, actions[..|actions| - 1], id);
      ApplyKeepsApproved(Run(s, actions[..|actions| - 1]), actions[|actions| - 1], id);
    }
  }

  lemma {:induction false} ApplyKeepsApproved(s: Store, a: Action, id: nat)
    requires id in s.projects && id < s.nextProjectId
    requires (s.projects[id].status == Approved || s.projects[id].status == Archived)
    ensures Apply(s, a).Ok? ==>
      var t := Apply(s, a).value;
      && id in t.projects && s.nextProjectId <= t.nextProjectId
      && (t.projects[id].status == Approved || t.projects[id].status == Archived)
      && t.projects[id] == s.projects[id].(status := t.projects[id].status)
  {
    hide RequestReviewOf, ApproveOf, ComputeProposal, CopyLayers, HasSuccessor, ActiveIdentityTaken;
  }

  // ---------------------------------------------------------------- revision chains

  function EffectiveRoot(id: nat, p: Project): nat { if p.revisionRootId.Some? then p.revisionRootId.value else id }

  /** The project's own lineage columns are consistent with its direct predecessor. */
  predicate Linked(projects: map<nat, Project>, id: nat)
    requires id in projects
  {
    var p := projects[id];
    if p.revisionOfId.None? then p.version == 1 && p.revisionRootId.None?
    else
      var parent := p.revisionOfId.value;
      && parent in projects && parent < id
      && p.version == projects[parent].version + 1
      && p.revisionRootId == Some(EffectiveRoot(parent, projects[parent]))
  }

  predicate AllLinked(projects: map<nat, Project>) { forall k: nat :: k in projects ==> Linked(projects, k) }

  predicate AtMostOneSuccessor(projects: map<nat, Project>) {
    forall a: nat, b: nat :: a in projects && b in projects && projects[a].revisionOfId.Some? ==>
      projects[a].revisionOfId == projects[b].revisionOfId ==> a == b
  }

  predicate ArchivedIffSucceeded(projects: map<nat, Project>) {
    forall k: nat :: k in projects ==> (projects[k].status == Archived <==> HasSuccessor(projects, k))
  }

  predicate IdsBelow(projects: map<nat, Project>, next: nat) { forall k: nat :: k in projects ==> k < next }

  predicate ChainsWellFormed(s: Store) {
    && IdsBelow(s.projects, s.nextProjectId)
    && AllLinked(s.projects)
    && AtMostOneSuccessor(s.projects)
    && ArchivedIffSucceeded(s.projects)
  }

  /** Steps back to the first version. */
  function Distance(projects: map<nat, Project>, id: nat): nat
    requires id in projects && AllLinked(projects)
    decreases id
  {
    assert Linked(projects, id);
    if projects[id].revisionOfId.None? then 0 else 1 + Distance(projects, projects[id].revisionOfId.value)
  }

  lemma {:induction false} RootBelow(projects: map<nat, Project>, id: nat)
    requires id in projects && AllLinked(projects)
    ensures EffectiveRoot(id, projects[id]) in projects && EffectiveRoot(id, projects[id]) <= id
    ensures projects[id].version >= 1 && projects[EffectiveRoot(id, projects[id])].version == 1
    ensures projects[id].version == 1 <==> EffectiveRoot(id, projects[id]) == id
    decreases id
  {
    assert Linked(projects, id);
    if projects[id].revisionOfId.Some? { RootBelow(projects, projects[id].revisionOfId.value); }
  }

  /** The version counts the distance from the root. */
  lemma {:induction false} VersionIsDistance(projects: map<nat, Project>, id: nat)
    requires id in projects && AllLinked(projects)
    ensures projects[id].version == 1 + Distance(projects, id)
    decreases id
  {
    assert Linked(projects, id);
    if projects[id].revisionOfId.Some? { VersionIsDistance(projects, projects[id].revisionOfId.value); }
  }

  /** A reachable approved project is never refused a revision for its lineage. */
  lemma {:induction false} ProposalAccepted(s: Store, id: nat)
    requires ChainsWellFormed(s) && id in s.projects && s.projects[id].status == Approved
    ensures ComputeProposal(id, s.projects[id]).Ok? && !HasSuccessor(s.projects, id)
  {
    hide HasSuccessor;
    assert Linked(s.projects, id);
    if s.projects[id].revisionOfId.Some? { RootBelow(s.projects, s.projects[id].revisionOfId.value); }
    assert !HasSuccessor(s.projects, id);
  }

  /** `qs` has every project of `ps` with the same lineage columns. */
  predicate KeepsLineage(ps: map<nat, Project>, qs: map<nat, Project>) {
    forall k: nat :: k in ps ==>
      k in qs && qs[k].version == ps[k].version && qs[k].revisionOfId == ps[k].revisionOfId
        && qs[k].revisionRootId == ps[k].revisionRootId
  }

  lemma {:induction false} LinkedKept(ps: map<nat, Project>, qs: map<nat, Project>, k: nat)
    requires AllLinked(ps) && KeepsLineage(ps, qs) && k in ps
    ensures Linked(qs, k)
  {
    assert Linked(ps, k);
  }

  lemma {:induction false} SuccessorKept(ps: map<nat, Project>, qs: map<nat, Project>, k: nat)
    requires KeepsLineage(ps, qs) && HasSuccessor(ps, k)
    ensures HasSuccessor(qs, k)
  {
    var c :| c in ps && ps[c].revisionOfId == Some(k);
    assert c in qs && qs[c].revisionOfId == Some(k);
  }

  /** Changing no lineage column and no archived status keeps the chains. */
  lemma {:induction false} UpdateKeepsChains(s: Store, t: Store)
    requires ChainsWellFormed(s) && t.nextProjectId == s.nextProjectId
    requires KeepsLineage(s.projects, t.projects) && KeepsLineage(t.projects, s.projects)
    requires forall k: nat :: k in s.projects && k in t.projects ==>
      (t.projects[k].status == Archived <==> s.projects[k].status == Archived)
    ensures ChainsWellFormed(t)
  {
    hide HasSuccessor, Linked;
    forall k: nat | k in t.projects ensures Linked(t.projects, k) { LinkedKept(s.projects, t.projects, k); }
    forall k: nat | k in t.projects ensures t.projects[k].status == Archived <==> HasSuccessor(t.projects, k) {
      assert k in s.projects;
      if HasSuccessor(s.projects, k) { SuccessorKept(s.projects, t.projects, k); }
      if HasSuccessor(t.projects, k) { SuccessorKept(t.projects, s.projects, k); }
    }
  }

  /** A successor in a store with one project `n` more is an old one, or `n` itself. */
  lemma {:induction false} SuccessorAfterAdding(ps: map<nat, Project>, qs: map<nat, Project>, n: nat, k: nat)
    requires KeepsLineage(ps, qs) && qs.Keys == ps.Keys + {n} && n !in ps
    ensures HasSuccessor(qs, k) <==> HasSuccessor(ps, k) || qs[n].revisionOfId == Some(k)
  {
    if HasSuccessor(ps, k) { SuccessorKept(ps, qs, k); }
    if HasSuccessor(qs, k) && qs[n].revisionOfId != Some(k) {
      var c: nat :| c in qs && qs[c].revisionOfId == Some(k);
      assert c in ps && ps[c].revisionOfId == Some(k);
    }
  }

  lemma {:induction false} NoSuccessorAbove(projects: map<nat, Project>, n: nat)
    requires AllLinked(projects) && IdsBelow(projects, n)
    ensures !HasSuccessor(projects, n)
  {
    forall c: nat | c in projects ensures projects[c].revisionOfId != Some(n) { assert Linked(projects, c); }
  }

  lemma {:induction false} SuccessorAt(projects: map<nat, Project>, c: nat, k: nat)
    requires c in projects && projects[c].revisionOfId == Some(k)
    ensures HasSuccessor(projects, k)
  {
  }

  /** Adding a project that is a first version, or the first successor of the project it archives. */
  lemma {:induction false} AddingKeepsChains(s: Store, t: Store, n: nat)
    requires ChainsWellFormed(s) && n == s.nextProjectId && t.nextProjectId == n + 1
    requires t.projects.Keys == s.projects.Keys + {n} && n !in s.projects && KeepsLineage(s.projects, t.projects)
    requires Linked(t.projects, n) && t.projects[n].status != Archived
    requires forall k: nat :: k in s.projects ==>
      !(HasSuccessor(s.projects, k) && t.projects[n].revisionOfId == Some(k))
    requires forall k: nat :: k in s.projects ==>
      (t.projects[k].status == Archived <==> s.projects[k].status == Archived || t.projects[n].revisionOfId == Some(k))
    ensures ChainsWellFormed(t)
  {
    hide HasSuccessor, Linked;
    forall k: nat | k in t.projects ensures Linked(t.projects,
      k) { if k != n { LinkedKept(s.projects, t.projects, k); } }
    NoSuccessorAbove(s.projects, n);
    forall k: nat | k in t.projects ensures t.projects[k].status == Archived <==> HasSuccessor(t.projects, k) {
      SuccessorAfterAdding(s.projects, t.projects, n, k);
      if k == n { assert t.projects[n].revisionOfId != Some(n) by { NotOwnParent(t.projects, n); } }
    }
    forall a: nat, b: nat | a in t.projects && b in t.projects && t.projects[a].revisionOfId.Some?
      && t.projects[a].revisionOfId == t.projects[b].revisionOfId ensures a == b {
      OnlyOneChild(s, t, n, a, b);
    }
  }

  lemma {:induction false} NotOwnParent(projects: map<nat, Project>, n: nat)
    requires n in projects && Linked(projects, n)
    ensures projects[n].revisionOfId != Some(n)
    ensures projects[n].revisionOfId.Some? ==> projects[n].revisionOfId.value in projects
  {
  }

  lemma {:induction false} OnlyOneChild(s: Store, t: Store, n: nat, a: nat, b: nat)
    requires AtMostOneSuccessor(s.projects) && t.projects.Keys == s.projects.Keys + {n} && n !in s.projects
    requires KeepsLineage(s.projects, t.projects)
    requires Linked(t.projects, n)
    requires forall k: nat :: k in s.projects ==>
      !(HasSuccessor(s.projects, k) && t.projects[n].revisionOfId == Some(k))
    requires a in t.projects && b in t.projects && t.projects[a].revisionOfId.Some?
    requires t.projects[a].revisionOfId == t.projects[b].revisionOfId
    ensures a == b
  {
    hide HasSuccessor, Linked;
    NotOwnParent(t.projects, n);
    var k: nat := t.projects[a].revisionOfId.value;
    if a in s.projects { SuccessorAt(s.projects, a, k); }
    if b in s.projects { SuccessorAt(s.projects, b, k); }
  }

  lemma {:induction false} CreateKeepsChains(s: Store, p: Project, t: Store)
    requires ChainsWellFormed(s) && p.version == 1 && p.revisionOfId.None? && p.revisionRootId.None?
    requires p.status == Draft
    requires t.projects == s.projects[s.nextProjectId := p] && t.nextProjectId == s.nextProjectId + 1
    ensures ChainsWellFormed(t)
  {
    hide HasSuccessor, AllLinked, ArchivedIffSucceeded, AtMostOneSuccessor;
    AddingKeepsChains(s, t, s.nextProjectId);
  }

  lemma {:induction false} RevisionKeepsChains(s: Store, id: nat, t: Store)
    requires ChainsWellFormed(s) && id in s.projects && s.projects[id].status == Approved
    requires ComputeProposal(id, s.projects[id]).Ok? && !HasSuccessor(s.projects, id)
    requires t.nextProjectId == s.nextProjectId + 1
    requires t.projects == s.projects[id := s.projects[id].(status := Archived)][
      s.nextProjectId := RevisionOf(s.projects[id], ComputeProposal(id, s.projects[id]).value, s.nextConditionId)]
    ensures ChainsWellFormed(t)
  {
    hide CopyLayers, HasSuccessor, AllLinked, ArchivedIffSucceeded, AtMostOneSuccessor;
    assert t.projects.Keys == s.projects.Keys + {s.nextProjectId};
    assert Linked(t.projects, s.nextProjectId);
    AddingKeepsChains(s, t, s.nextProjectId);
  }

  lemma {:induction false} TransitionKeepsLineage(registry: Registry, id: nat, p: Project, action: ReviewAction,
      expected: Option<Status>)
    requires TransitionOf(registry, id, p, action, expected).Ok?
    ensures var q := TransitionOf(registry, id, p, action, expected).value;
      && q.version == p.version && q.revisionOfId == p.revisionOfId && q.revisionRootId == p.revisionRootId
      && q.layers == p.layers && q.lineId == p.lineId && q.processId == p.processId && q.partId == p.partId
      && p.status != Archived && q.status != Archived
      && NextStatus(p.status, action) == Some(q.status)
  {
    hide LoadBasis, Snapshot, Evaluate, LayerInputs, OnePorPerLayer;
  }

  lemma {:induction false} ApplyKeepsChains(s: Store, a: Action)
    requires ChainsWellFormed(s) && Apply(s, a).Ok?
    ensures ChainsWellFormed(Apply(s, a).value)
  {
    hide TransitionOf, ChainsWellFormed, HasSuccessor, ActiveIdentityTaken, ComputeProposal, RevisionOf, RowIdsUsable,
         RowIds, NextAfter, NextStatus, ConditionTotal;
    match a
    case CreateProject(lineId, processId, partId, name, layers) =>
      CreateKeepsChains(s, Project(lineId, processId, partId, name, Draft, 1, None, None, layers, None, None, None),
        Apply(s, a).value);
    case EditSheet(id, layers) => UpdateKeepsChains(s, Apply(s, a).value);
    case ChangeRegistry(registry) => SameProjectsSameChains(s, Apply(s, a).value);
    case Transition(id, action, expected) =>
      TransitionKeepsLineage(s.registry, id, s.projects[id], action, expected);
      UpdateKeepsChains(s, Apply(s, a).value);
    case CreateRevision(id) => RevisionKeepsChains(s, id, Apply(s, a).value);
  }

  lemma {:induction false} SameProjectsSameChains(s: Store, t: Store)
    requires ChainsWellFormed(s) && s.projects == t.projects && s.nextProjectId == t.nextProjectId
    ensures ChainsWellFormed(t)
  {
  }

  /** Every run keeps revision chains well formed. */
  lemma {:induction false} RevisionChainsWellFormed(registry: Registry, actions: seq<Action>)
    ensures ChainsWellFormed(Run(EmptyStore(registry), actions))
  {
    hide Apply;
    if |actions| > 0 {
      var before := actions[..|actions| - 1];
      RevisionChainsWellFormed(registry, before);
      var s := Run(EmptyStore(registry), before);
      if Apply(s, actions[|actions| - 1]).Ok? { ApplyKeepsChains(s, actions[|actions| - 1]); }
    }
  }

  /** The member of `id`'s chain with version `v`. */
  function Ancestor(projects: map<nat, Project>, id: nat, v: int): nat
    requires id in projects && 1 <= v <= projects[id].version && AllLinked(projects)
    decreases id
  {
    assert Linked(projects, id);
    if v == projects[id].version || projects[id].revisionOfId.None? then id
      else Ancestor(projects, projects[id].revisionOfId.value, v)
  }

  lemma {:induction false} AncestorProps(projects: map<nat, Project>, id: nat, v: int)
    requires id in projects && 1 <= v <= projects[id].version && AllLinked(projects)
    ensures var a := Ancestor(projects, id, v);
      && a in projects && projects[a].version == v
      && EffectiveRoot(a, projects[a]) == EffectiveRoot(id, projects[id])
      && (v < projects[id].version ==> HasSuccessor(projects, a))
    decreases id
  {
    hide HasSuccessor;
    assert Linked(projects, id);
    if v != projects[id].version {
      var parent: nat := projects[id].revisionOfId.value;
      AncestorProps(projects, parent, v);
      if v == projects[parent].version { SuccessorAt(projects, id, parent); }
    }
  }

  /** Within one chain a version names a single project. */
  lemma {:induction false} VersionUnique(s: Store, a: nat, b: nat)
    requires ChainsWellFormed(s) && a in s.projects && b in s.projects
    requires EffectiveRoot(a, s.projects[a]) == EffectiveRoot(b, s.projects[b])
    requires s.projects[a].version == s.projects[b].version
    ensures a == b
    decreases a
  {
    hide HasSuccessor;
    assert Linked(s.projects, a) && Linked(s.projects, b);
    RootBelow(s.projects, a);
    RootBelow(s.projects, b);
    if s.projects[a].version > 1 {
      VersionUnique(s, s.projects[a].revisionOfId.value, s.projects[b].revisionOfId.value);
    }
  }

  /** In every reachable store a chain has at most one member that is not archived. */
  lemma {:induction false} OneLiveMember(s: Store, a: nat, b: nat)
    requires ChainsWellFormed(s) && a in s.projects && b in s.projects
    requires EffectiveRoot(a, s.projects[a]) == EffectiveRoot(b, s.projects[b])
    requires s.projects[a].status != Archived && s.projects[b].status != Archived
    ensures a == b
  {
    hide HasSuccessor;
    RootBelow(s.projects, a);
    RootBelow(s.projects, b);
    var va, vb := s.projects[a].version, s.projects[b].version;
    if va <= vb {
      AncestorProps(s.projects, b, va);
      VersionUnique(s, a, Ancestor(s.projects, b, va));
    } else {
      AncestorProps(s.projects, a, vb);
      VersionUnique(s, b, Ancestor(s.projects, a, vb));
    }
  }

  // ---------------------------------------------------------------- a revision starts with its source's sheet

  predicate SameRow(a: ConditionRow, b: ConditionRow) { b == a.(id := b.id) }

  /** The same layer with the same rows and cells under other row ids. */
  predicate SameSheetLayer(a: SheetLayer, b: SheetLayer) {
    && b == a.(conditions := b.conditions)
    && |a.conditions| == |b.conditions|
    && forall i :: 0 <= i < |a.conditions| ==> SameRow(a.conditions[i], b.conditions[i])
  }

  lemma {:induction false} CopiedLayer(l: SheetLayer, first: nat)
    ensures var c := l.(conditions := CopyConditions(l.conditions, first));
      && SameSheetLayer(l, c) && |IdsOf(c.conditions)| == |l.conditions|
      && forall i :: 0 <= i < |l.conditions| ==> IdsOf(c.conditions)[i] == first + i
  {
  }

  lemma {:induction false} CopyKeepsSheet(layers: seq<SheetLayer>, nextId: nat)
    ensures var r := CopyLayers(layers, nextId);
      && |r| == |layers|
      && (forall i :: 0 <= i < |r| ==> SameSheetLayer(layers[i], r[i]))
      && |RowIds(r)| == ConditionTotal(layers)
      && (forall i :: 0 <= i < |RowIds(r)| ==> RowIds(r)[i] == nextId + i)
  {
    hide SameSheetLayer, CopyConditions, IdsOf;
    var n := |layers| - 1;
    if n >= 0 {
      CopyKeepsSheet(layers[..n], nextId);
      CopiedLayer(layers[n], nextId + ConditionTotal(layers[..n]));
      var r := CopyLayers(layers, nextId);
      assert r[..n] == CopyLayers(layers[..n], nextId);
    }
  }

  // ---------------------------------------------------------------- row ids

  predicate RowsBelow(ids: seq<nat>, next: nat) { forall i :: 0 <= i < |ids| ==> ids[i] < next }

  predicate ApartFrom(a: seq<nat>, b: seq<nat>) { forall i :: 0 <= i < |a| ==> a[i] !in b }

  /** Every row of the store has its own id, and none has one still to be given out. */
  predicate RowsApart(s: Store) {
    && (forall k: nat :: k in s.projects ==>
      DistinctRows(RowIds(s.projects[k].layers)) && RowsBelow(RowIds(s.projects[k].layers), s.nextConditionId))
    && (forall a: nat, b: nat :: a in s.projects && b in s.projects && a != b ==>
      ApartFrom(RowIds(s.projects[a].layers), RowIds(s.projects[b].layers)))
  }

  lemma {:induction false} NextAfterAbove(ids: seq<nat>, next: nat)
    ensures NextAfter(ids, next) >= next && RowsBelow(ids, NextAfter(ids, next))
  {
    if |ids| > 0 {
      var before := ids[..|ids| - 1];
      NextAfterAbove(before, next);
      forall i | 0 <= i < |ids| - 1 ensures ids[i] < NextAfter(ids, next) { assert before[i] == ids[i]; }
    }
  }

  /** One project's rows are replaced by its own and new ones. */
  lemma {:induction false} ReplaceKeepsApart(s: Store, t: Store, k: nat, own: seq<nat>)
    requires RowsApart(s) && t.nextConditionId >= s.nextConditionId && k in t.projects
    requires t.projects.Keys <= s.projects.Keys + {k}
    requires forall m: nat :: m in t.projects && m != k ==> t.projects[m].layers == s.projects[m].layers
    requires forall m: nat :: m in s.projects && m != k ==>
      ApartFrom(own, RowIds(s.projects[m].layers)) && ApartFrom(RowIds(s.projects[m].layers), own)
    requires RowIdsUsable(RowIds(t.projects[k].layers), own, s.nextConditionId)
    requires RowsBelow(RowIds(t.projects[k].layers), t.nextConditionId)
    ensures RowsApart(t)
  {
    hide RowIds;
    var ids := RowIds(t.projects[k].layers);
    forall m: nat | m in t.projects && m != k
      ensures m in s.projects && ApartFrom(ids, RowIds(t.projects[m].layers))
      ensures ApartFrom(RowIds(t.projects[m].layers), ids)
    {
      var others := RowIds(s.projects[m].layers);
      assert RowsBelow(others, s.nextConditionId);
      forall i | 0 <= i < |ids| ensures ids[i] !in others {
        if ids[i] in own { var j: nat :| j < |own| && own[j] == ids[i]; }
      }
      forall i | 0 <= i < |others| ensures others[i] !in ids {
        forall j | 0 <= j < |ids| ensures ids[j] != others[i] { assert ids[j] !in others && others[i] in others; }
      }
    }
    forall m: nat | m in t.projects ensures RowsBelow(RowIds(t.projects[m].layers), t.nextConditionId) {
      if m != k { assert RowsBelow(RowIds(s.projects[m].layers), s.nextConditionId); }
    }
  }

  lemma {:induction false} SameRowsApart(s: Store, t: Store)
    requires RowsApart(s) && t.nextConditionId == s.nextConditionId && t.projects.Keys == s.projects.Keys
    requires forall m: nat :: m in t.projects ==> t.projects[m].layers == s.projects[m].layers
    ensures RowsApart(t)
  {
    hide RowIds, DistinctRows, RowsBelow, ApartFrom;
  }

  lemma {:induction false} ApplyKeepsRowsApart(s: Store, a: Action)
    requires ChainsWellFormed(s) && RowsApart(s) && Apply(s, a).Ok?
    ensures RowsApart(Apply(s, a).value)
  {
    hide TransitionOf, RowIds, NextAfter, HasSuccessor, ActiveIdentityTaken, ComputeProposal, CopyLayers, AllLinked,
         AtMostOneSuccessor, ArchivedIffSucceeded, RowsApart, ConditionTotal;
    var t := Apply(s, a).value;
    match a
    case CreateProject(lineId, processId, partId, name, layers) =>
      NextAfterAbove(RowIds(layers), s.nextConditionId);
      ReplaceKeepsApart(s, t, s.nextProjectId, []);
    case EditSheet(id, layers) =>
      NextAfterAbove(RowIds(layers), s.nextConditionId);
      OwnRowsApart(s, id);
      ReplaceKeepsApart(s, t, id, RowIds(s.projects[id].layers));
    case ChangeRegistry(registry) => SameRowsApart(s, t);
    case Transition(id, action, expected) =>
      TransitionKeepsLineage(s.registry, id, s.projects[id], action, expected);
      SameRowsApart(s, t);
    case CreateRevision(id) =>
      var source := s.projects[id];
      var archived := s.(projects := s.projects[id := source.(status := Archived)]);
      SameRowsApart(s, archived);
      CopyKeepsSheet(source.layers, s.nextConditionId);
      ReplaceKeepsApart(archived, t, s.nextProjectId, []);
  }

  lemma {:induction false} OwnRowsApart(s: Store, k: nat)
    requires RowsApart(s) && k in s.projects
    ensures forall m: nat :: m in s.projects && m != k ==>
      ApartFrom(RowIds(s.projects[k].layers), RowIds(s.projects[m].layers))
        && ApartFrom(RowIds(s.projects[m].layers), RowIds(s.projects[k].layers))
  {
    hide RowIds, DistinctRows, RowsBelow, ApartFrom;
  }

  /** In every run no two rows share an id, within a project or across projects. */
  lemma {:induction false} RowIdsStayApart(registry: Registry, actions: seq<Action>)
    ensures RowsApart(Run(EmptyStore(registry), actions))
  {
    hide Apply, ChainsWellFormed;
    if |actions| > 0 {
      var before := actions[..|actions| - 1];
      RowIdsStayApart(registry, before);
      RevisionChainsWellFormed(registry, before);
      var s := Run(EmptyStore(registry), before);
      if Apply(s, actions[|actions| - 1]).Ok? { ApplyKeepsRowsApart(s, actions[|actions| - 1]); }
    }
  }

  // ---------------------------------------------------------------- one active project for each identity

  /** Two active projects of one line, process and part. */
  predicate BothActive(p: Project, q: Project) {
    p.status != Archived && q.status != Archived && p.lineId == q.lineId && p.processId == q.processId
      && p.partId == q.partId
  }

  predicate OneLivePerIdentity(projects: map<nat, Project>) {
    forall a: nat, b: nat :: a in projects && b in projects && BothActive(projects[a], projects[b]) ==> a == b
  }

  lemma {:induction false} ApplyKeepsIdentities(s: Store, a: Action)
    requires ChainsWellFormed(s) && OneLivePerIdentity(s.projects) && Apply(s, a).Ok?
    ensures OneLivePerIdentity(Apply(s, a).value.projects)
  {
    hide TransitionOf, RowIds, NextAfter, RowIdsUsable, HasSuccessor, ComputeProposal, CopyLayers, AllLinked,
         AtMostOneSuccessor, ArchivedIffSucceeded, ConditionTotal;
    if a.Transition? { TransitionKeepsLineage(s.registry, a.id, s.projects[a.id], a.action, a.expected); }
  }

  /**
   * In every run at most one project that is not archived has a given line, process and part, as
   * the unique index demands.
   */
  lemma {:induction false} OneActiveProject(registry: Registry, actions: seq<Action>)
    ensures OneLivePerIdentity(Run(EmptyStore(registry), actions).projects)
  {
    hide Apply, ChainsWellFormed;
    if |actions| > 0 {
      var before := actions[..|actions| - 1];
      OneActiveProject(registry, before);
      RevisionChainsWellFormed(registry, before);
      var s := Run(EmptyStore(registry), before);
      if Apply(s, actions[|actions| - 1]).Ok? { ApplyKeepsIdentities(s, actions[|actions| - 1]); }
    }
  }

  // ---------------------------------------------------------------- a revision is a copy under new row ids

  /** A created revision is a draft of the next version with its source's layers, rows and cells under fresh row ids. */
  lemma {:induction false} RevisionStartsAsSource(s: Store, id: nat)
    requires ChainsWellFormed(s) && RowsApart(s) && ReviseIn(s, id).Ok?
    ensures Apply(s, CreateRevision(id)) == ReviseIn(s, id)
    ensures var t := ReviseIn(s, id).value;
      var source, target := s.projects[id], t.projects[s.nextProjectId];
      && t.projects[id] == source.(status := Archived)
      && target.status == Draft && target.version == source.version + 1 && target.revisionOfId == Some(id)
      && EffectiveRoot(s.nextProjectId, target) == EffectiveRoot(id, source)
      && |target.layers| == |source.layers|
      && (forall i :: 0 <= i < |source.layers| ==> SameSheetLayer(source.layers[i], target.layers[i]))
      && DistinctRows(RowIds(target.layers))
      && (forall k: nat :: k in s.projects ==> ApartFrom(RowIds(target.layers), RowIds(s.projects[k].layers)))
      && (forall k :: k in s.projects && k != id ==> t.projects[k] == s.projects[k])
  {
    hide SameSheetLayer, CopyLayers, HasSuccessor, RowIds, AllLinked, AtMostOneSuccessor, ArchivedIffSucceeded,
         ConditionTotal;
    var source := s.projects[id];
    CopyKeepsSheet(source.layers, s.nextConditionId);
    assert s.nextProjectId !in s.projects;
    var t := ReviseIn(s, id).value;
    ApplyKeepsRowsApart(s, CreateRevision(id));
    forall k: nat | k in s.projects ensures ApartFrom(RowIds(t.projects[s.nextProjectId].layers),
      RowIds(s.projects[k].layers)) {
      assert t.projects[k].layers == s.projects[k].layers;
    }
    assert ReviseIn(s, id).value.projects[s.nextProjectId] ==
      RevisionOf(source, ComputeProposal(id, source).value, s.nextConditionId);
  }
}
