/**
 * Review, approval and revision of projects (backend/app/features/approval/service.py,
 * backend/app/domain/workflow/core.py, features/validation/project_service.py).
 *
 * `Apply` gives the effect of one committed transaction on the whole store; `ApprovalService`
 * performs it on its fields. A failed transaction changes nothing.
 */
module Workflow {
  import opened Results
  import opened Validation
  import opened DefinitionHash
  import opened Freezing
  import Json

  // ---------------------------------------------------------------- data

  datatype Status = Draft | Review | Approved | Rejected | Archived

  datatype ReviewAction = RequestReview | Approve | Reject | ReturnToDraft

  datatype ConditionRow = ConditionRow(id: nat, labelText: string, conditionIndex: int, isPor: bool,
      sourceConditionId: Option<nat>, cells: map<string, Option<string>>)

  datatype SheetLayer = SheetLayer(
    layerKey: string, layerId: string, stepSeq: string, eqpType: Option<string>, eqpTypeDesc: Option<string>,
    areaName: Option<string>, sortOrder: int,
    sourceProjectId: Option<nat>, sourceLayerKey: Option<string>, backboneSnapshot: Option<Json.Json>,
    conditions: seq<ConditionRow>)

  datatype Project = Project(
    lineId: string, processId: string, partId: string, name: string, status: Status, version: int,
    revisionRootId: Option<nat>, revisionOfId: Option<nat>, layers: seq<SheetLayer>,
    parameterSnapshot: Option<Document>, reviewBasisHash: Option<Digest>, reviewRuleVersions: Option<map<string, int>>)

  datatype RuleRow = RuleRow(rule: Rule, isActive: bool)

  datatype Registry = Registry(categories: seq<CategoryRow>, parameters: seq<ParameterRow>,
      choiceSets: seq<ChoiceSetRow>, rules: seq<RuleRow>)

  datatype Store = Store(registry: Registry, projects: map<nat, Project>, nextProjectId: nat, nextConditionId: nat)

  datatype WorkflowError =
    | NotFound
    | StatusConflict
    | TransitionInvalid
    | ReviewGateFailed
    | ConfigurationRejected
    | SnapshotRejected
    | ProjectReadOnly
    | ProjectExists
    | RowIdTaken
    | RevisionExists
    | RevisionRefused

  datatype Action =
    | CreateProject(lineId: string, processId: string, partId: string, name: string, layers: seq<SheetLayer>)
    | EditSheet(id: nat, layers: seq<SheetLayer>)
    | ChangeRegistry(registry: Registry)
    | Transition(id: nat, action: ReviewAction, expected: Option<Status>)
    | CreateRevision(id: nat)

  // ---------------------------------------------------------------- the validation basis

  function ContextOf(id: nat, p: Project): ProjectContext { ProjectContext(id, p.lineId, p.processId) }

  function ConditionInputOf(c: ConditionRow): ConditionInput {
    ConditionInput(c.id, c.labelText, c.conditionIndex, c.isPor, c.cells)
  }

  function LayerInputOf(l: SheetLayer): LayerInput {
    LayerInput(l.layerKey, l.layerId, l.stepSeq, l.eqpType, l.areaName, l.sortOrder,
               seq(|l.conditions|, i requires 0 <= i < |l.conditions| => ConditionInputOf(l.conditions[i])))
  }

  function LayerInputs(p: Project): seq<LayerInput> {
    OrderLayers(seq(|p.layers|, i requires 0 <= i < |p.layers| => LayerInputOf(p.layers[i])))
  }

  /** The definition of a live parameter, with the fields its type uses and canonical bounds. */
  function BasisDefinition(row: ParameterRow,
      sets: seq<ChoiceSetRow>): Result<ParameterDefinition, ConfigurationError> {
    if row.valueType.Choice? && (row.choiceSetCode.None? || SetByCode(sets, row.choiceSetCode.value).None?)
      then Err(ConfigurationInvalid)
    else
      var lo :- CanonicalBound(if row.valueType.Number? then row.minValue else None);
      var hi :- CanonicalBound(if row.valueType.Number? then row.maxValue else None);
      Ok(ParameterDefinition(row.code, row.displayName, row.valueType, row.required,
                             if row.valueType.Text? then row.pattern
                               else None, if row.valueType.Text? then row.patternHint else None,
                             lo, hi,
                             if row.valueType.Choice? then row.choiceSetCode else None,
                             if row.valueType.Choice? then Choices(SetByCode(sets,
                               row.choiceSetCode.value).value) else [],
                             row.sortOrder))
  }

  function BasisDefinitions(rows: seq<ParameterRow>,
      sets: seq<ChoiceSetRow>): Result<seq<ParameterDefinition>, ConfigurationError> {
    if |rows| == 0 then Ok([])
    else
      var first :- BasisDefinition(rows[0], sets);
      var rest :- BasisDefinitions(rows[1..], sets);
      Ok([first] + rest)
  }

  function LayerFiltersOnly(s: Scope): Scope { Scope([], [], s.layerIds, s.stepSeqs, s.eqpTypes, s.areaNames) }

  /** A rule checked against the definitions; the project filters are consumed. */
  function ApplicableRule(rule: Rule, context: ProjectContext,
      ps: seq<ParameterDefinition>): Result<Option<Rule>, ConfigurationError> {
    var spec :- CanonicalSpec(rule.spec, ps);
    if !AppliesToProject(rule.scope, context) then Ok(None)
    else Ok(Some(rule.(scope := CanonicalScope(LayerFiltersOnly(rule.scope)), spec := spec)))
  }

  function ApplicableRules(rows: seq<RuleRow>, context: ProjectContext,
      ps: seq<ParameterDefinition>): Result<seq<Rule>, ConfigurationError> {
    if |rows| == 0 then Ok([])
    else if !rows[0].isActive then ApplicableRules(rows[1..], context, ps)
    else
      var first :- ApplicableRule(rows[0].rule, context, ps);
      var rest :- ApplicableRules(rows[1..], context, ps);
      Ok(AsSeq(first) + rest)
  }

  datatype Basis = Basis(context: ProjectContext, rows: seq<ParameterRow>, definitions: seq<ParameterDefinition>,
      rules: seq<Rule>)

  /** CanonicalValidationBasisLoader.load for a project that is not yet frozen. */
  function LoadBasis(registry: Registry, id: nat, p: Project): Result<Basis, ConfigurationError> {
    var context := ContextOf(id, p);
    var rows := ActiveParameters(registry.parameters);
    var definitions :- BasisDefinitions(rows, registry.choiceSets);
    var rules :- ApplicableRules(registry.rules, context, definitions);
    var structure :- Evaluate(context, definitions, [], rules);
    var payload :- CanonicalPayload(definitions, Versions(registry.choiceSets), rules);
    Ok(Basis(context, rows, definitions, rules))
  }

  function TypedRow(row: ParameterRow): ParameterRow {
    row.(choiceSetCode := if row.valueType.Choice? then row.choiceSetCode else None,
         unit := if row.valueType.Number? then row.unit else None,
         minValue := if row.valueType.Number? then row.minValue else None,
         maxValue := if row.valueType.Number? then row.maxValue else None,
         pattern := if row.valueType.Text? then row.pattern else None,
         patternHint := if row.valueType.Text? then row.patternHint else None)
  }

  function TypedRows(rows: seq<ParameterRow>): (r: seq<ParameterRow>)
    ensures |r| == |rows| && forall i :: 0 <= i < |r| ==> r[i] == TypedRow(rows[i])
  {
    if |rows| == 0 then [] else [TypedRow(rows[0])] + TypedRows(rows[1..])
  }

  /** The rows `_snapshot_basis` hands to the snapshot builder. */
  function SnapshotRows(registry: Registry, basis: Basis): Rows {
    Rows(ActiveCategories(registry.categories), TypedRows(basis.rows), registry.choiceSets, basis.rules)
  }

  function RuleVersions(rules: seq<Rule>): map<string, int> {
    if |rules| == 0 then map[]
      else RuleVersions(rules[..|rules| - 1])[rules[|rules| - 1].code := rules[|rules| - 1].version]
  }

  // ---------------------------------------------------------------- gates

  function PorCount(cs: seq<ConditionRow>): nat {
    if |cs| == 0 then 0 else (if cs[0].isPor then 1 else 0) + PorCount(cs[1..])
  }

  predicate OnePorPerLayer(layers: seq<SheetLayer>) {
    forall i :: 0 <= i < |layers| ==> PorCount(layers[i].conditions) == 1
  }

  function NextStatus(status: Status, action: ReviewAction): Option<Status> {
    match (status, action)
    case (Draft, RequestReview) => Some(Review)
    case (Review, Approve) => Some(Approved)
    case (Review, Reject) => Some(Rejected)
    case (Rejected, ReturnToDraft) => Some(Draft)
    case _ => None
  }

  // ---------------------------------------------------------------- transitions

  function RequestReviewOf(registry: Registry, id: nat, p: Project): Result<Project, WorkflowError> {
    match LoadBasis(registry, id, p)
    case Err(_) => Err(ConfigurationRejected)
    case Ok(basis) =>
      match Evaluate(basis.context, basis.definitions, LayerInputs(p), basis.rules)
      case Err(_) => Err(ConfigurationRejected)
      case Ok(issues) =>
        if !OnePorPerLayer(p.layers) || ErrorCount(issues) > 0 then Err(ReviewGateFailed)
        else match Snapshot(SnapshotRows(registry, basis))
          case Err(_) => Err(SnapshotRejected)
          case Ok(captured) =>
            Ok(p.(status := Review, reviewBasisHash := Some(captured.validationBasisHash),
              reviewRuleVersions := Some(RuleVersions(basis.rules))))
  }

  /** Approval revalidates only when the captured digest differs from the reviewed one. */
  function ApproveOf(registry: Registry, id: nat, p: Project): Result<Project, WorkflowError> {
    if p.reviewBasisHash.None? then Err(ReviewGateFailed)
    else match LoadBasis(registry, id, p)
      case Err(_) => Err(ConfigurationRejected)
      case Ok(basis) =>
        match Snapshot(SnapshotRows(registry, basis))
        case Err(_) => Err(SnapshotRejected)
        case Ok(captured) =>
          var approved := p.(status := Approved, parameterSnapshot := Some(captured),
                             reviewBasisHash := Some(captured.validationBasisHash),
                               reviewRuleVersions := Some(RuleVersions(basis.rules)));
          if captured.validationBasisHash == p.reviewBasisHash.value then Ok(approved)
          else match Evaluate(basis.context, basis.definitions, LayerInputs(p), basis.rules)
            case Err(_) => Err(ConfigurationRejected)
            case Ok(issues) => if ErrorCount(issues) > 0 then Err(ReviewGateFailed) else Ok(approved)
  }

  function TransitionOf(registry: Registry, id: nat, p: Project, action: ReviewAction,
      expected: Option<Status>): Result<Project, WorkflowError> {
    if expected.Some? && p.status != expected.value then Err(StatusConflict)
    else if NextStatus(p.status, action).None? then Err(TransitionInvalid)
    else match action
      case RequestReview => RequestReviewOf(registry, id, p)
      case Approve => ApproveOf(registry, id, p)
      case Reject => Ok(p.(status := Rejected))
      case ReturnToDraft => Ok(p.(status := Draft, reviewBasisHash := None, reviewRuleVersions := None))
  }

  // ---------------------------------------------------------------- revisions

  datatype Proposal = Proposal(revisionRootId: nat, revisionOfId: nat, version: int)

  /** compute_revision_proposal */
  function ComputeProposal(id: nat, p: Project): Result<Proposal, WorkflowError> {
    if p.status != Approved then Err(RevisionRefused)
    else if p.revisionOfId == Some(id) then Err(RevisionRefused)
    else if p.version < 1 then Err(RevisionRefused)
    else if p.version == 1 && (p.revisionOfId.Some? || (p.revisionRootId.Some? && p.revisionRootId != Some(id)))
      then Err(RevisionRefused)
    else if p.version > 1 && (p.revisionRootId.None? || p.revisionRootId == Some(id) || p.revisionOfId.None?)
      then Err(RevisionRefused)
    else Ok(Proposal(if p.revisionRootId.Some? then p.revisionRootId.value else id, id, p.version + 1))
  }

  predicate HasSuccessor(projects: map<nat, Project>, id: nat) {
    exists k :: k in projects && projects[k].revisionOfId == Some(id)
  }

  function CopyConditions(cs: seq<ConditionRow>, nextId: nat): (r: seq<ConditionRow>)
    ensures |r| == |cs| && forall i :: 0 <= i < |r| ==> r[i] == cs[i].(id := nextId + i)
  {
    seq(|cs|, i requires 0 <= i < |cs| => cs[i].(id := nextId + i))
  }

  /** The layers with every condition row re-created under fresh ids, numbered in order. */
  function CopyLayers(layers: seq<SheetLayer>, nextId: nat): seq<SheetLayer> {
    if |layers| == 0 then []
    else
      var n := |layers| - 1;
      CopyLayers(layers[..n], nextId)
        + [layers[n].(conditions := CopyConditions(layers[n].conditions, nextId + ConditionTotal(layers[..n])))]
  }

  function ConditionTotal(layers: seq<SheetLayer>): nat {
    if |layers| == 0 then 0 else ConditionTotal(layers[..|layers| - 1]) + |layers[|layers| - 1].conditions|
  }

  function RevisionOf(p: Project, proposal: Proposal, nextConditionId: nat): Project {
    Project(p.lineId, p.processId, p.partId, p.name, Draft, proposal.version, Some(proposal.revisionRootId),
      Some(proposal.revisionOfId),
            CopyLayers(p.layers, nextConditionId), None, None, None)
  }

  // ---------------------------------------------------------------- one transaction

  predicate ActiveIdentityTaken(projects: map<nat, Project>, lineId: string, processId: string, partId: string) {
    exists k :: k in projects && projects[k].status != Archived
      && projects[k].lineId == lineId && projects[k].processId == processId && projects[k].partId == partId
  }

  /** The ids of all rows, in order. */
  function RowIds(layers: seq<SheetLayer>): seq<nat> {
    if |layers| == 0 then [] else RowIds(layers[..|layers| - 1]) + IdsOf(layers[|layers| - 1].conditions)
  }

  function IdsOf(cs: seq<ConditionRow>): (r: seq<nat>)
    ensures |r| == |cs| && forall i :: 0 <= i < |r| ==> r[i] == cs[i].id
  {
    seq(|cs|, i requires 0 <= i < |cs| => cs[i].id)
  }

  predicate DistinctRows(ids: seq<nat>) { forall i, j :: 0 <= i < j < |ids| ==> ids[i] != ids[j] }

  /** Row ids are a primary key: a sheet keeps its own rows, and the database numbers new ones onwards. */
  predicate RowIdsUsable(ids: seq<nat>, own: seq<nat>, next: nat) {
    DistinctRows(ids) && forall i :: 0 <= i < |ids| ==> ids[i] in own || ids[i] >= next
  }

  /** The next free row id once these rows are stored. */
  function NextAfter(ids: seq<nat>, next: nat): nat {
    if |ids| == 0 then next
    else
      var before := NextAfter(ids[..|ids| - 1], next);
      if ids[|ids| - 1] >= before then ids[|ids| - 1] + 1 else before
  }

  function CreateIn(s: Store, lineId: string, processId: string, partId: string, name: string,
      layers: seq<SheetLayer>): Result<Store, WorkflowError> {
    if ActiveIdentityTaken(s.projects, lineId, processId, partId) then Err(ProjectExists)
    else if !RowIdsUsable(RowIds(layers), [], s.nextConditionId) then Err(RowIdTaken)
    else
      var p := Project(lineId, processId, partId, name, Draft, 1, None, None, layers, None, None, None);
      Ok(s.(projects := s.projects[s.nextProjectId := p], nextProjectId := s.nextProjectId + 1,
            nextConditionId := NextAfter(RowIds(layers), s.nextConditionId)))
  }

  function EditIn(s: Store, id: nat, layers: seq<SheetLayer>): Result<Store, WorkflowError> {
    if id !in s.projects then Err(NotFound)
    else if s.projects[id].status != Draft then Err(ProjectReadOnly)
    else if !RowIdsUsable(RowIds(layers), RowIds(s.projects[id].layers), s.nextConditionId) then Err(RowIdTaken)
    else Ok(s.(projects := s.projects[id := s.projects[id].(layers := layers)],
      nextConditionId := NextAfter(RowIds(layers), s.nextConditionId)))
  }

  function TransitionIn(s: Store, id: nat, action: ReviewAction,
      expected: Option<Status>): Result<Store, WorkflowError> {
    if id !in s.projects then Err(NotFound)
    else
      var p :- TransitionOf(s.registry, id, s.projects[id], action, expected);
      Ok(s.(projects := s.projects[id := p]))
  }

  function ReviseIn(s: Store, id: nat): Result<Store, WorkflowError> {
    if id !in s.projects then Err(NotFound)
    else if s.projects[id].status != Approved then Err(TransitionInvalid)
    else if HasSuccessor(s.projects, id) then Err(RevisionExists)
    else
      var source := s.projects[id];
      var proposal :- ComputeProposal(id, source);
      var target := RevisionOf(source, proposal, s.nextConditionId);
      Ok(s.(projects := s.projects[id := source.(status := Archived)][s.nextProjectId := target],
            nextProjectId := s.nextProjectId + 1, nextConditionId := s.nextConditionId + ConditionTotal(source.layers)))
  }

  function Apply(s: Store, a: Action): Result<Store, WorkflowError> {
    match a
    case CreateProject(lineId, processId, partId, name, layers) => CreateIn(s, lineId, processId, partId, name, layers)
    case EditSheet(id, layers) => EditIn(s, id, layers)
    case ChangeRegistry(registry) => Ok(s.(registry := registry))
    case Transition(id, action, expected) => TransitionIn(s, id, action, expected)
    case CreateRevision(id) => ReviseIn(s, id)
  }

  /** The store after a list of attempted transactions; a refused one is rolled back. */
  function Run(s: Store, actions: seq<Action>): Store {
    if |actions| == 0 then s
    else
      var before := Run(s, actions[..|actions| - 1]);
      match Apply(before, actions[|actions| - 1]) case Ok(after) => after case Err(_) => before
  }

  function EmptyStore(registry: Registry): Store { Store(registry, map[], 1, 1) }
}
