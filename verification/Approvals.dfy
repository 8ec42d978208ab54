/**
 * The approval service as it updates project records in place
 * (backend/app/features/approval/service.py). Every method is proved against its case
 * of `Workflow.Apply`.
 */
module Approvals {
  import opened Results
  import opened Ordering
  import opened Validation
  import opened Freezing
  import opened Workflow

  class ProjectRecord {
    const lineId: string
    const processId: string
    const partId: string
    const name: string
    const version: int
    const revisionRootId: Option<nat>
    const revisionOfId: Option<nat>
    var status: Status
    var layers: seq<SheetLayer>
    var parameterSnapshot: Option<Document>
    var reviewBasisHash: Option<Digest>
    var reviewRuleVersions: Option<map<string, int>>

    /** The record of a new draft. */
    constructor (lineId: string, processId: string, partId: string, name: string, version: int,
        revisionRootId: Option<nat>, revisionOfId: Option<nat>, layers: seq<SheetLayer>)
      ensures Value() == Project(lineId, processId, partId, name, Draft, version, revisionRootId, revisionOfId, layers,
        None, None, None)
    {
      this.lineId, this.processId, this.partId, this.name := lineId, processId, partId, name;
      this.version, this.revisionRootId, this.revisionOfId := version, revisionRootId, revisionOfId;
      this.status, this.layers := Draft, layers;
      parameterSnapshot, reviewBasisHash, reviewRuleVersions := None, None, None;
    }

    function Value(): Project
      reads this
    {
      Project(lineId, processId, partId, name, status, version, revisionRootId, revisionOfId, layers,
        parameterSnapshot, reviewBasisHash, reviewRuleVersions)
    }

    method RequestReview(registry: Registry, id: nat) returns (refused: Option<WorkflowError>)
      requires status == Draft
      modifies this
      ensures RecordPerformed(RequestReviewOf(registry, id, old(Value())), old(Value()), Value(), refused)
    {
      hide LoadBasis, Snapshot, Evaluate, SnapshotRows, RuleVersions, ErrorCount, OnePorPerLayer, LayerInputs;
      var basis := LoadBasis(registry, id, Value());
      if basis.Err? { return Some(ConfigurationRejected); }
      var issues := Evaluate(basis.value.context, basis.value.definitions, LayerInputs(Value()), basis.value.rules);
      if issues.Err? { return Some(ConfigurationRejected); }
      if !OnePorPerLayer(layers) || ErrorCount(issues.value) > 0 { return Some(ReviewGateFailed); }
      var captured := Snapshot(SnapshotRows(registry, basis.value));
      if captured.Err? { return Some(SnapshotRejected); }
      status := Review;
      reviewBasisHash := Some(captured.value.validationBasisHash);
      reviewRuleVersions := Some(RuleVersions(basis.value.rules));
      return None;
    }

    method Approve(registry: Registry, id: nat) returns (refused: Option<WorkflowError>)
      requires status == Status.Review
      modifies this
      ensures RecordPerformed(ApproveOf(registry, id, old(Value())), old(Value()), Value(), refused)
    {
      hide LoadBasis, Snapshot, Evaluate, SnapshotRows, RuleVersions, ErrorCount, LayerInputs;
      if reviewBasisHash.None? { return Some(ReviewGateFailed); }
      var basis := LoadBasis(registry, id, Value());
      if basis.Err? { return Some(ConfigurationRejected); }
      var captured := Snapshot(SnapshotRows(registry, basis.value));
      if captured.Err? { return Some(SnapshotRejected); }
      if captured.value.validationBasisHash != reviewBasisHash.value {
        var issues := Evaluate(basis.value.context, basis.value.definitions, LayerInputs(Value()), basis.value.rules);
        if issues.Err? { return Some(ConfigurationRejected); }
        if ErrorCount(issues.value) > 0 { return Some(ReviewGateFailed); }
      }
      parameterSnapshot := Some(captured.value);
      reviewBasisHash := Some(captured.value.validationBasisHash);
      reviewRuleVersions := Some(RuleVersions(basis.value.rules));
      status := Approved;
      return None;
    }

    method Transition(registry: Registry, id: nat, action: ReviewAction,
        expected: Option<Status>) returns (refused: Option<WorkflowError>)
      modifies this
      ensures RecordPerformed(TransitionOf(registry, id, old(Value()), action, expected), old(Value()),
        Value(), refused)
    {
      hide RequestReviewOf, ApproveOf;
      if expected.Some? && status != expected.value { return Some(StatusConflict); }
      var next := NextStatus(status, action);
      if next.None? { return Some(TransitionInvalid); }
      match action
      case RequestReview => refused := this.RequestReview(registry, id);
      case Approve => refused := this.Approve(registry, id);
      case Reject =>
        status := next.value;
        refused := None;
      case ReturnToDraft =>
        status := next.value;
        reviewBasisHash := None;
        reviewRuleVersions := None;
        refused := None;
    }
  }

  /** A record took the specified value, or was refused as specified and did not change. */
  predicate RecordPerformed(specified: Result<Project, WorkflowError>, before: Project, after: Project,
      refused: Option<WorkflowError>) {
    match specified
    case Ok(next) => refused.None? && after == next
    case Err(e) => refused == Some(e) && after == before
  }

  /** The outcome of one transaction: the specified store, or the specified refusal and no change. */
  predicate Performed(specified: Result<Store, WorkflowError>, before: Store, after: Store,
      refused: Option<WorkflowError>) {
    match specified
    case Ok(next) => refused.None? && after == next
    case Err(e) => refused == Some(e) && after == before
  }

  class ApprovalService {
    var registry: Registry
    var projects: map<nat, ProjectRecord>
    var nextProjectId: nat
    var nextConditionId: nat

    /** Each id has its own record, and new ids are fresh. */
    ghost predicate Valid()
      reads this`projects, this`nextProjectId
    {
      && (forall a: nat, b: nat :: a in projects && b in projects && projects[a] == projects[b] ==> a == b)
      && (forall k: nat :: k in projects ==> k < nextProjectId)
    }

    function ProjectValues(): map<nat, Project>
      reads this`projects, projects.Values
    {
      map k | k in projects :: projects[k].Value()
    }

    function Contents(): Store
      reads this, projects.Values
    {
      Store(registry, ProjectValues(), nextProjectId, nextConditionId)
    }

    constructor (registry: Registry)
      ensures Valid() && Contents() == EmptyStore(registry)
    {
      this.registry, projects, nextProjectId, nextConditionId := registry, map[], 1, 1;
    }

    method UseRegistry(registry: Registry)
      requires Valid()
      modifies this
      ensures Valid() && projects == old(projects)
      ensures Performed(Ok(old(Contents()).(registry := registry)), old(Contents()), Contents(), None)
    {
      this.registry := registry;
      assert ProjectValues() == old(ProjectValues());
    }

    /** Adds a record under the next id. */
    method Add(project: ProjectRecord)
      requires Valid() && project !in projects.Values
      modifies this`projects, this`nextProjectId
      ensures Valid() && projects == old(projects)[old(nextProjectId) := project]
      ensures nextProjectId == old(nextProjectId) + 1
      ensures ProjectValues() == old(ProjectValues())[old(nextProjectId) := project.Value()]
    {
      projects := projects[nextProjectId := project];
      nextProjectId := nextProjectId + 1;
    }

    method Create(lineId: string, processId: string, partId: string, name: string,
        layers: seq<SheetLayer>) returns (refused: Option<WorkflowError>)
      requires Valid()
      modifies this
      ensures Valid() && fresh(projects.Values - old(projects.Values))
      ensures Performed(CreateIn(old(Contents()), lineId, processId, partId, name, layers), old(Contents()),
        Contents(), refused)
    {
      hide ActiveIdentityTaken, RowIds, RowIdsUsable, NextAfter;
      if ActiveIdentityTaken(ProjectValues(), lineId, processId, partId) { return Some(ProjectExists); }
      if !RowIdsUsable(RowIds(layers), [], nextConditionId) { return Some(RowIdTaken); }
      nextConditionId := NextAfter(RowIds(layers), nextConditionId);
      var project := new ProjectRecord(lineId, processId, partId, name, 1, None, None, layers);
      Add(project);
      refused := None;
    }

    method Edit(id: nat, layers: seq<SheetLayer>) returns (refused: Option<WorkflowError>)
      requires Valid()
      modifies this`nextConditionId, projects.Values
      ensures Valid() && Performed(EditIn(old(Contents()), id, layers), old(Contents()), Contents(), refused)
    {
      if id !in projects { return Some(NotFound); }
      var project := projects[id];
      if project.status != Draft { return Some(ProjectReadOnly); }
      if !RowIdsUsable(RowIds(layers), RowIds(project.layers), nextConditionId) { return Some(RowIdTaken); }
      nextConditionId := NextAfter(RowIds(layers), nextConditionId);
      project.layers := layers;
      refused := None;
      assert ProjectValues() == old(ProjectValues())[id := project.Value()];
    }

    method TransitionProject(id: nat, action: ReviewAction,
        expected: Option<Status>) returns (refused: Option<WorkflowError>)
      requires Valid()
      modifies projects.Values
      ensures Valid()
      ensures Performed(TransitionIn(old(Contents()), id, action, expected), old(Contents()), Contents(), refused)
    {
      hide TransitionOf;
      if id !in projects { return Some(NotFound); }
      var project := projects[id];
      refused := project.Transition(registry, id, action, expected);
      assert ProjectValues() == old(ProjectValues())[id := project.Value()];
    }

    /** The copied cells of one row, appended one by one. */
    method CopyCells(source: map<string, Option<string>>) returns (copied: map<string, Option<string>>)
      ensures copied == source
    {
      hide SortedTexts;
      SortedTextsProps(source.Keys);
      var codes := SortedTexts(source.Keys);
      copied := map[];
      for i := 0 to |codes|
        invariant forall code :: code in copied ==> code in source && copied[code] == source[code]
        invariant forall k :: 0 <= k < i ==> codes[k] in copied
      {
        assert codes[i] in codes;
        copied := copied[codes[i] := source[codes[i]]];
      }
      forall code | code in source ensures code in copied { var k := IndexOf(codes, code); }
    }

    /** The copied rows of one layer, appended one by one under new ids. */
    method CopyRows(source: seq<ConditionRow>) returns (copied: seq<ConditionRow>)
      modifies this`nextConditionId
      ensures copied == CopyConditions(source, old(nextConditionId))
      ensures nextConditionId == old(nextConditionId) + |source|
    {
      copied := [];
      for i := 0 to |source|
        invariant nextConditionId == old(nextConditionId) + i
        invariant copied == CopyConditions(source, old(nextConditionId))[..i]
      {
        var row := source[i];
        var cells := CopyCells(row.cells);
        copied := copied + [ConditionRow(nextConditionId, row.labelText, row.conditionIndex, row.isPor,
          row.sourceConditionId, cells)];
        nextConditionId := nextConditionId + 1;
      }
    }

    method CopyGraph(source: seq<SheetLayer>) returns (copied: seq<SheetLayer>)
      modifies this`nextConditionId
      ensures copied == CopyLayers(source, old(nextConditionId))
      ensures nextConditionId == old(nextConditionId) + ConditionTotal(source)
    {
      copied := [];
      for i := 0 to |source|
        invariant copied == CopyLayers(source[..i], old(nextConditionId))
        invariant nextConditionId == old(nextConditionId) + ConditionTotal(source[..i])
      {
        var layer := source[i];
        var rows := CopyRows(layer.conditions);
        copied := copied + [SheetLayer(layer.layerKey, layer.layerId, layer.stepSeq, layer.eqpType, layer.eqpTypeDesc,
          layer.areaName, layer.sortOrder,
                                       layer.sourceProjectId, layer.sourceLayerKey, layer.backboneSnapshot, rows)];
        assert source[..i + 1][..i] == source[..i];
      }
      assert source[..|source|] == source;
    }

    method Archive(id: nat)
      requires Valid() && id in projects
      modifies projects[id]
      ensures projects[id].Value() == old(projects[id].Value()).(status := Archived)
      ensures ProjectValues() == old(ProjectValues())[id := old(projects[id].Value()).(status := Archived)]
    {
      projects[id].status := Archived;
    }

    /** Archives the source and adds its copy as the next version. */
    method AddRevision(id: nat, proposal: Proposal)
      requires Valid() && id in projects
      modifies this`projects, this`nextProjectId, this`nextConditionId, projects[id]
      ensures Valid() && fresh(projects.Values - old(projects.Values))
      ensures nextProjectId == old(nextProjectId) + 1
      ensures nextConditionId == old(nextConditionId + ConditionTotal(projects[id].layers))
      ensures ProjectValues() == old(ProjectValues())[id := old(projects[id].Value()).(status := Archived)]
                                                     [old(nextProjectId) := RevisionOf(old(projects[id].Value()),
                                                       proposal, old(nextConditionId))]
    {
      hide CopyLayers, ConditionTotal;
      Archive(id);
      var source := projects[id];
      var layers := CopyGraph(source.layers);
      var target := new ProjectRecord(source.lineId, source.processId, source.partId, source.name, proposal.version,
                                      Some(proposal.revisionRootId), Some(proposal.revisionOfId), layers);
      Add(target);
    }

    method Revise(id: nat) returns (refused: Option<WorkflowError>)
      requires Valid()
      modifies this, projects.Values
      ensures Valid() && fresh(projects.Values - old(projects.Values))
      ensures Performed(ReviseIn(old(Contents()), id), old(Contents()), Contents(), refused)
    {
      hide HasSuccessor, ComputeProposal, CopyLayers, ConditionTotal, RevisionOf;
      if id !in projects { return Some(NotFound); }
      var source := projects[id];
      if source.status != Approved { return Some(TransitionInvalid); }
      if HasSuccessor(ProjectValues(), id) { return Some(RevisionExists); }
      var proposal := ComputeProposal(id, source.Value());
      if proposal.Err? { return Some(proposal.error); }
      AddRevision(id, proposal.value);
      refused := None;
    }
  }
}
