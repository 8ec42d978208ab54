/**
 * Comparing a frozen baseline snapshot with the live sheet (backend/app/domain/backbone/diff.py).
 *
 * Conditions are matched by lineage and every coordinate is classified. The functions say what
 * is compared; the program's loops are the methods of `DiffEngine` and `DiffCache`.
 */
module BackboneDiff {
  import opened Results
  import opened Ordering
  import opened BaselineSnapshot
  import opened Json
  import Decimals
  import V = Validation

  // ---------------------------------------------------------------- inputs

  datatype CurrentParameter = CurrentParameter(code: string, valueType: V.ValueType, displayName: string,
      categoryCode: Option<string>, sortOrder: int, active: bool)

  datatype CurrentCell = CurrentCell(code: string, value: Option<string>)

  datatype CurrentCondition = CurrentCondition(id: int, sourceId: Option<int>, labelText: string, conditionIndex: int,
      isPor: bool, cells: seq<CurrentCell>)

  datatype CurrentSource = CurrentSource(
    projectId: int, sheetLayerId: int, layerKey: string, stepSeq: string, layerId: string, sortOrder: int,
    sourceProjectId: Option<int>, sourceLayerKey: Option<string>)

  datatype LayerInput = LayerInput(
    layerKey: string, sortOrder: int, source: CurrentSource, baseline: Option<Snapshot>,
    conditions: seq<CurrentCondition>, parameters: seq<CurrentParameter>)

  /** `Unresolved`: a stored cell without a descriptor; `BasisInvalid`: types or values that do not fit. */
  datatype DiffError = Unresolved | BasisInvalid

  function CurrentOrder(c: CurrentCondition): Key { [Num(c.conditionIndex), Num(c.id)] }

  function ParameterOrder(p: CurrentParameter): Key { [Num(p.sortOrder), Txt(p.code)] }

  function CurrentCellKey(c: CurrentCell): Key { [Txt(c.code)] }

  predicate DistinctIds(cs: seq<CurrentCondition>) { forall i, j :: 0 <= i < j < |cs| ==> cs[i].id != cs[j].id }

  predicate DistinctParameters(ps: seq<CurrentParameter>) {
    forall i, j :: 0 <= i < j < |ps| ==> ps[i].code != ps[j].code
  }

  predicate SortedCurrentCells(cells: seq<CurrentCell>) {
    forall i, j :: 0 <= i < j < |cells| ==> TextLess(cells[i].code, cells[j].code)
  }

  /** What the constructors of a layer input establish. */
  ghost predicate ValidLayer(l: LayerInput) {
    && DistinctIds(l.conditions) && StrictlySorted(l.conditions, CurrentOrder)
    && (forall i :: 0 <= i < |l.conditions| ==>
      l.conditions[i].id > 0 && l.conditions[i].conditionIndex >= 0 && SortedCurrentCells(l.conditions[i].cells))
    && (forall i :: 0 <= i < |l.parameters| ==> l.parameters[i].code != "" && l.parameters[i].sortOrder >= 0)
    && DistinctParameters(l.parameters) && StrictlySorted(l.parameters, ParameterOrder)
    && (l.baseline.Some? ==> WellFormed(l.baseline.value))
  }

  // ---------------------------------------------------------------- the selected registry

  function FindParameter(ps: seq<CurrentParameter>, code: string): Option<CurrentParameter> {
    if |ps| == 0 then None
    else if ps[|ps| - 1].code == code then Some(ps[|ps| - 1])
    else FindParameter(ps[..|ps| - 1], code)
  }

  function CellCodes(cells: seq<CurrentCell>): set<string> { set i | 0 <= i < |cells| :: cells[i].code }

  function StoredCodes(cs: seq<CurrentCondition>): set<string> {
    if |cs| == 0 then {} else StoredCodes(cs[..|cs| - 1]) + CellCodes(cs[|cs| - 1].cells)
  }

  function ParameterCodes(ps: seq<CurrentParameter>): set<string> { set i | 0 <= i < |ps| :: ps[i].code }

  /** The active parameters and those with stored values. */
  function Selected(ps: seq<CurrentParameter>, stored: set<string>): seq<CurrentParameter> {
    if |ps| == 0 then []
    else
      Selected(ps[..|ps| - 1], stored)
        + (if ps[|ps| - 1].active || ps[|ps| - 1].code in stored then [ps[|ps| - 1]] else [])
  }

  function SelectParameters(ps: seq<CurrentParameter>, stored: set<string>): Result<seq<CurrentParameter>, DiffError> {
    if stored <= ParameterCodes(ps) then Ok(SortBy(Selected(ps, stored), ParameterOrder)) else Err(Unresolved)
  }

  // ---------------------------------------------------------------- the coordinate plan

  /** The baseline columns as a dictionary by code. */
  function ColumnMap(columns: seq<Column>): map<string, Column> {
    if |columns| == 0 then map[]
      else ColumnMap(columns[..|columns| - 1])[columns[|columns| - 1].code := columns[|columns| - 1]]
  }

  datatype Coordinate = Coordinate(code: string, sortOrder: int, inBaseline: bool, inCurrent: bool)

  datatype Plan = Plan(codes: seq<string>, coordinates: map<string, Coordinate>, addedCodes: seq<string>,
      removedCodes: seq<string>)

  /** The sort order shown for a code: the current registry decides, then the baseline. */
  function ShownOrder(columns: map<string, Column>, selected: seq<CurrentParameter>, code: string): int {
    var current := FindParameter(selected, code);
    if current.Some? then current.value.sortOrder else if code in columns then columns[code].sortOrder else 0
  }

  function CoordinateOrder(columns: map<string, Column>, selected: seq<CurrentParameter>): string -> Key {
    code => [Num(ShownOrder(columns, selected, code)), Txt(code)]
  }

  function BaselineOrder(columns: map<string, Column>): string -> Key {
    code => [Num(if code in columns then columns[code].sortOrder else 0), Txt(code)]
  }

  predicate TypesAgree(columns: map<string, Column>, selected: seq<CurrentParameter>) {
    forall i :: 0 <= i < |selected| && selected[i].code in columns ==>
      columns[selected[i].code].valueType == selected[i].valueType
  }

  function PlanCoordinate(columns: map<string, Column>, selected: seq<CurrentParameter>, code: string): Coordinate {
    Coordinate(code, ShownOrder(columns, selected, code), code in columns, FindParameter(selected, code).Some?)
  }

  function BuildPlan(columns: map<string, Column>, selected: seq<CurrentParameter>): Plan {
    var all := columns.Keys + ParameterCodes(selected);
    Plan(SortBy(SortedTexts(all), CoordinateOrder(columns, selected)),
         map code | code in all :: PlanCoordinate(columns, selected, code),
         SortBy(SortedTexts(ParameterCodes(selected)), CoordinateOrder(columns, selected)),
         SortBy(SortedTexts(columns.Keys), BaselineOrder(columns)))
  }

  function PlanOf(columns: map<string, Column>, selected: seq<CurrentParameter>): Result<Plan, DiffError> {
    if TypesAgree(columns, selected) then Ok(BuildPlan(columns, selected)) else Err(BasisInvalid)
  }

  // ---------------------------------------------------------------- current values

  datatype PreparedCondition = PreparedCondition(condition: CurrentCondition, values: map<string, Option<string>>,
      payloadCells: seq<CurrentCell>)

  function CanonicalCurrentValue(t: V.ValueType, value: Option<string>): Result<Option<string>, DiffError> {
    if value.None? then Ok(None)
    else match t
      case Number => (match Decimals.Normalize(value.value) case Ok(text) => Ok(Some(text))
        case Err(_) => Err(BasisInvalid))
      case Choice => if value.value == "" then Err(BasisInvalid) else Ok(value)
      case Text => Ok(value)
  }

  /** The current descriptor's type, or the baseline column's. */
  function DescriptorType(columns: map<string, Column>, selected: seq<CurrentParameter>,
      code: string): Option<V.ValueType> {
    var current := FindParameter(selected, code);
    if current.Some? then Some(current.value.valueType)
      else if code in columns then Some(columns[code].valueType) else None
  }

  function PrepareCell(columns: map<string, Column>, selected: seq<CurrentParameter>,
      cell: CurrentCell): Result<CurrentCell, DiffError> {
    match DescriptorType(columns, selected, cell.code)
    case None => Err(Unresolved)
    case Some(t) =>
      var value :- CanonicalCurrentValue(t, cell.value);
      Ok(CurrentCell(cell.code, value))
  }

  function PrepareCells(columns: map<string, Column>, selected: seq<CurrentParameter>,
      cells: seq<CurrentCell>): Result<seq<CurrentCell>, DiffError> {
    if |cells| == 0 then Ok([])
    else
      var before :- PrepareCells(columns, selected, cells[..|cells| - 1]);
      var last :- PrepareCell(columns, selected, cells[|cells| - 1]);
      Ok(before + [last])
  }

  function ValueMap(cells: seq<CurrentCell>): map<string, Option<string>> {
    if |cells| == 0 then map[] else ValueMap(cells[..|cells| - 1])[cells[|cells| - 1].code := cells[|cells| - 1].value]
  }

  function PrepareCondition(columns: map<string, Column>, selected: seq<CurrentParameter>,
      c: CurrentCondition): Result<PreparedCondition, DiffError> {
    var cells :- PrepareCells(columns, selected, c.cells);
    Ok(PreparedCondition(c, ValueMap(cells), cells))
  }

  function PrepareConditions(columns: map<string, Column>, selected: seq<CurrentParameter>,
      cs: seq<CurrentCondition>): Result<seq<PreparedCondition>, DiffError> {
    if |cs| == 0 then Ok([])
    else
      var before :- PrepareConditions(columns, selected, cs[..|cs| - 1]);
      var last :- PrepareCondition(columns, selected, cs[|cs| - 1]);
      Ok(before + [last])
  }

  // ---------------------------------------------------------------- prepared layers

  /** The content whose JSON text is the layer's basis bytes. */
  datatype Basis = Basis(
    baseline: Option<Json>, conditions: seq<(CurrentCondition, seq<CurrentCell>)>, source: CurrentSource,
    parameters: seq<Json>, layerKey: string, sortOrder: int)

  function ParameterOut(p: CurrentParameter): Json {
    Obj([Field("active", Bool(p.active)), Field("category_code", OptionalStr(p.categoryCode)),
      Field("code", Str(p.code)),
         Field("display_name", Str(p.displayName)), Field("sort_order", Int(p.sortOrder)),
         Field("value_type", Str(TypeName(p.valueType)))])
  }

  function ParametersOut(ps: seq<CurrentParameter>): seq<Json> {
    seq(|ps|, i requires 0 <= i < |ps| => ParameterOut(ps[i]))
  }

  datatype Prepared = Prepared(
    layer: LayerInput, basis: Basis, columns: map<string, Column>, selected: seq<CurrentParameter>,
    conditions: seq<PreparedCondition>, plan: Plan)

  function PayloadConditions(cs: seq<PreparedCondition>): seq<(CurrentCondition, seq<CurrentCell>)> {
    seq(|cs|, i requires 0 <= i < |cs| => (cs[i].condition.(cells := []), cs[i].payloadCells))
  }

  function LayerBasis(l: LayerInput, selected: seq<CurrentParameter>, conditions: seq<PreparedCondition>): Basis {
    Basis(if l.baseline.Some? then Some(Serialize(l.baseline.value)) else None, PayloadConditions(conditions),
      l.source, ParametersOut(selected), l.layerKey, l.sortOrder)
  }

  function BaselineColumns(l: LayerInput): map<string, Column> {
    if l.baseline.Some? then ColumnMap(l.baseline.value.columns) else map[]
  }

  /** _prepare_layer with a fresh cache. */
  function PrepareLayer(l: LayerInput): Result<Prepared, DiffError> {
    var columns := BaselineColumns(l);
    var selected :- SelectParameters(l.parameters, StoredCodes(l.conditions));
    var plan :- PlanOf(columns, selected);
    var conditions :- PrepareConditions(columns, selected, l.conditions);
    Ok(Prepared(l, LayerBasis(l, selected, conditions), columns, selected, conditions, plan))
  }

  // ---------------------------------------------------------------- rows

  datatype RowStatus = Matched | Added | Removed

  datatype Classification = AddedCell | ChangedCell | ClearedCell | RemovedCell | UnchangedCell

  datatype Reason = ColumnRemoved | ColumnAdded | NullEqual | ValueAdded | ValueCleared | ValueEqual | ValueChanged
    | RowAdded | RowRemoved

  datatype MetadataChange = LabelChanged(was: string, now: string) | IndexChanged(wasIndex: int,
      nowIndex: int) | PorChanged(wasPor: bool, nowPor: bool)

  datatype CellChange = CellChange(code: string, sortOrder: int, classification: Classification, reason: Reason,
      baselineValue: Option<string>, currentValue: Option<string>)

  datatype Row = Row(
    layerKey: string, status: RowStatus, effectiveIndex: int, identity: int,
    baselineSourceId: Option<int>, currentId: Option<int>,
    baselineIndex: Option<int>, currentIndex: Option<int>,
    baselineLabel: Option<string>, currentLabel: Option<string>,
    baselineIsPor: Option<bool>, currentIsPor: Option<bool>,
    metadataChanges: seq<MetadataChange>, cells: seq<CellChange>)

  function StatusRank(s: RowStatus): int { match s case Matched => 0 case Added => 1 case Removed => 2 }

  function RowOrder(r: Row): Key { [Num(r.effectiveIndex), Num(StatusRank(r.status)), Num(r.identity)] }

  function CellOrder(c: CellChange): Key { [Num(c.sortOrder), Txt(c.code)] }

  function BaselineValue(b: Condition, code: string): Option<string> { FindValue(b.cells, code) }

  function FindValue(cells: seq<Cell>, code: string): Option<string> {
    if |cells| == 0 then None
    else if cells[|cells| - 1].code == code then Some(cells[|cells| - 1].value)
    else FindValue(cells[..|cells| - 1], code)
  }

  function CurrentValue(c: PreparedCondition, code: string): Option<string> {
    if code in c.values then c.values[code] else None
  }

  function MetadataChanges(b: Condition, c: CurrentCondition): seq<MetadataChange> {
    (if b.labelText != c.labelText then [LabelChanged(b.labelText, c.labelText)] else [])
    + (if b.conditionIndex != c.conditionIndex then [IndexChanged(b.conditionIndex, c.conditionIndex)] else [])
    + (if b.isPor != c.isPor then [PorChanged(b.isPor, c.isPor)] else [])
  }

  function CompareCoordinate(at: Coordinate, was: Option<string>, now: Option<string>): CellChange {
    if at.inBaseline && !at.inCurrent then CellChange(at.code, at.sortOrder, RemovedCell, ColumnRemoved, was, None)
    else if at.inCurrent && !at.inBaseline then CellChange(at.code, at.sortOrder, AddedCell, ColumnAdded, None, now)
    else if was.None? && now.None? then CellChange(at.code, at.sortOrder, UnchangedCell, NullEqual, None, None)
    else if was.None? then CellChange(at.code, at.sortOrder, AddedCell, ValueAdded, None, now)
    else if now.None? then CellChange(at.code, at.sortOrder, ClearedCell, ValueCleared, was, None)
    else if was == now then CellChange(at.code, at.sortOrder, UnchangedCell, ValueEqual, was, now)
    else CellChange(at.code, at.sortOrder, ChangedCell, ValueChanged, was, now)
  }

  /** Every code of a list is a planned coordinate. */
  predicate Planned(plan: Plan, codes: seq<string>) { forall i :: 0 <= i < |codes| ==> codes[i] in plan.coordinates }

  predicate PlanComplete(plan: Plan) {
    Planned(plan, plan.codes) && Planned(plan, plan.addedCodes) && Planned(plan, plan.removedCodes)
  }

  function MatchedCells(plan: Plan, b: Condition, c: PreparedCondition): (r: seq<CellChange>)
    requires Planned(plan, plan.codes)
    ensures |r| == |plan.codes|
    ensures forall i :: 0 <= i < |r| ==>
      r[i] == CompareCoordinate(plan.coordinates[plan.codes[i]], BaselineValue(b, plan.codes[i]),
        CurrentValue(c, plan.codes[i]))
  {
    seq(|plan.codes|, i requires 0 <= i < |plan.codes| =>
      CompareCoordinate(plan.coordinates[plan.codes[i]], BaselineValue(b, plan.codes[i]),
        CurrentValue(c, plan.codes[i])))
  }

  function AddedCells(plan: Plan, c: PreparedCondition): (r: seq<CellChange>)
    requires Planned(plan, plan.addedCodes)
    ensures |r| == |plan.addedCodes|
    ensures forall i :: 0 <= i < |r| ==>
      r[i] == CellChange(plan.addedCodes[i], plan.coordinates[plan.addedCodes[i]].sortOrder, AddedCell, RowAdded, None,
        CurrentValue(c, plan.addedCodes[i]))
  {
    seq(|plan.addedCodes|, i requires 0 <= i < |plan.addedCodes| =>
      CellChange(plan.addedCodes[i], plan.coordinates[plan.addedCodes[i]].sortOrder, AddedCell, RowAdded, None,
        CurrentValue(c, plan.addedCodes[i])))
  }

  function RemovedCells(plan: Plan, b: Condition): (r: seq<CellChange>)
    requires Planned(plan, plan.removedCodes)
    ensures |r| == |plan.removedCodes|
    ensures forall i :: 0 <= i < |r| ==>
      r[i] == CellChange(plan.removedCodes[i], plan.coordinates[plan.removedCodes[i]].sortOrder, RemovedCell,
        RowRemoved, BaselineValue(b, plan.removedCodes[i]), None)
  {
    seq(|plan.removedCodes|, i requires 0 <= i < |plan.removedCodes| =>
      CellChange(plan.removedCodes[i], plan.coordinates[plan.removedCodes[i]].sortOrder, RemovedCell, RowRemoved,
        BaselineValue(b, plan.removedCodes[i]), None))
  }

  function MatchedRow(layerKey: string, plan: Plan, b: Condition, c: PreparedCondition): Row
    requires PlanComplete(plan)
  {
    var now := c.condition;
    Row(layerKey, Matched, now.conditionIndex, now.id, Some(b.sourceId), Some(now.id), Some(b.conditionIndex),
      Some(now.conditionIndex),
        Some(b.labelText), Some(now.labelText), Some(b.isPor), Some(now.isPor), MetadataChanges(b, now),
        MatchedCells(plan, b, c))
  }

  function AddedRow(layerKey: string, plan: Plan, c: PreparedCondition): Row
    requires PlanComplete(plan)
  {
    var now := c.condition;
    Row(layerKey, Added, now.conditionIndex, now.id, now.sourceId, Some(now.id), None, Some(now.conditionIndex),
        None, Some(now.labelText), None, Some(now.isPor), [], AddedCells(plan, c))
  }

  function RemovedRow(layerKey: string, plan: Plan, b: Condition): Row
    requires PlanComplete(plan)
  {
    Row(layerKey, Removed, b.conditionIndex, b.sourceId, Some(b.sourceId), None, Some(b.conditionIndex), None,
        Some(b.labelText), None, Some(b.isPor), None, [], RemovedCells(plan, b))
  }

  // ---------------------------------------------------------------- matching by lineage

  /** The current conditions derived from a baseline condition, in order. */
  function Descendants(cs: seq<PreparedCondition>, sourceId: int): seq<PreparedCondition> {
    if |cs| == 0 then []
    else
      Descendants(cs[..|cs| - 1], sourceId)
        + (if cs[|cs| - 1].condition.sourceId == Some(sourceId) then [cs[|cs| - 1]] else [])
  }

  function PreparedOrder(c: PreparedCondition): Key { CurrentOrder(c.condition) }

  function AddedRows(layerKey: string, plan: Plan, cs: seq<PreparedCondition>): (r: seq<Row>)
    requires PlanComplete(plan)
    ensures |r| == |cs| && forall i :: 0 <= i < |r| ==> r[i] == AddedRow(layerKey, plan, cs[i])
  {
    seq(|cs|, i requires 0 <= i < |cs| => AddedRow(layerKey, plan, cs[i]))
  }

  /** The first descendant is the match; further ones are added rows; none at all is a removed row. */
  function LineageRows(layerKey: string, plan: Plan, b: Condition, cs: seq<PreparedCondition>): seq<Row>
    requires PlanComplete(plan)
  {
    var found := SortBy(Descendants(cs, b.sourceId), PreparedOrder);
    if |found| == 0 then [RemovedRow(layerKey, plan, b)]
    else [MatchedRow(layerKey, plan, b, found[0])] + AddedRows(layerKey, plan, found[1..])
  }

  function BaselineRows(layerKey: string, plan: Plan, bs: seq<Condition>, cs: seq<PreparedCondition>): seq<Row>
    requires PlanComplete(plan)
  {
    if |bs| == 0 then []
    else BaselineRows(layerKey, plan, bs[..|bs| - 1], cs) + LineageRows(layerKey, plan, bs[|bs| - 1], cs)
  }

  function SourceIds(bs: seq<Condition>): set<int> { set i | 0 <= i < |bs| :: bs[i].sourceId }

  predicate Derived(c: CurrentCondition, sources: set<int>) { c.sourceId.Some? && c.sourceId.value in sources }

  /** The current conditions that derive from no baseline condition. */
  function Unmatched(cs: seq<PreparedCondition>, sources: set<int>): seq<PreparedCondition> {
    if |cs| == 0 then []
    else Unmatched(cs[..|cs| - 1], sources) + (if Derived(cs[|cs| - 1].condition, sources) then [] else [cs[|cs| - 1]])
  }

  function AllRows(layerKey: string, plan: Plan, bs: seq<Condition>, cs: seq<PreparedCondition>): seq<Row>
    requires PlanComplete(plan)
  {
    BaselineRows(layerKey, plan, bs, cs) + AddedRows(layerKey, plan, Unmatched(cs, SourceIds(bs)))
  }

  function AmbiguousCount(bs: seq<Condition>, cs: seq<PreparedCondition>): nat {
    if |bs| == 0 then 0
    else AmbiguousCount(bs[..|bs| - 1], cs) + (if |Descendants(cs, bs[|bs| - 1].sourceId)| > 1 then 1 else 0)
  }

  // ---------------------------------------------------------------- counters

  function CountRows(rows: seq<Row>, status: RowStatus): nat {
    if |rows| == 0 then 0
      else CountRows(rows[..|rows| - 1], status) + (if rows[|rows| - 1].status == status then 1 else 0)
  }

  function CountMetadata(rows: seq<Row>): nat {
    if |rows| == 0 then 0 else CountMetadata(rows[..|rows| - 1]) + |rows[|rows| - 1].metadataChanges|
  }

  function CountCells(cells: seq<CellChange>, kind: Classification): nat {
    if |cells| == 0 then 0
      else CountCells(cells[..|cells| - 1], kind) + (if cells[|cells| - 1].classification == kind then 1 else 0)
  }

  function CountRowCells(rows: seq<Row>, kind: Classification): nat {
    if |rows| == 0 then 0 else CountRowCells(rows[..|rows| - 1], kind) + CountCells(rows[|rows| - 1].cells, kind)
  }

  datatype Counters = Counters(
    matched: nat, added: nat, removed: nat, metadata: nat,
    addedCells: nat, removedCells: nat, clearedCells: nat, changedCells: nat, unchangedCells: nat)

  function Counted(rows: seq<Row>): Counters {
    Counters(CountRows(rows, Matched), CountRows(rows, Added), CountRows(rows, Removed), CountMetadata(rows),
             CountRowCells(rows, AddedCell), CountRowCells(rows, RemovedCell), CountRowCells(rows, ClearedCell),
             CountRowCells(rows, ChangedCell), CountRowCells(rows, UnchangedCell))
  }

  datatype LayerResult = LayerResult(
    layerKey: string, sortOrder: int, basis: Basis, baselineUnavailable: bool, ambiguousLineage: nat,
    counters: Counters, rows: seq<Row>)

  /** _compare_prepared_layer */
  function ComparePrepared(p: Prepared): LayerResult
    requires PlanComplete(p.plan)
  {
    var l := p.layer;
    if l.baseline.None? then LayerResult(l.layerKey, l.sortOrder, p.basis, true, 0, Counted([]), [])
    else
      var bs := l.baseline.value.conditions;
      var rows := SortBy(AllRows(l.layerKey, p.plan, bs, p.conditions), RowOrder);
      LayerResult(l.layerKey, l.sortOrder, p.basis, false, AmbiguousCount(bs, p.conditions), Counted(rows), rows)
  }

  // ---------------------------------------------------------------- plans are complete

  lemma {:induction false} FindParameterMember(ps: seq<CurrentParameter>, code: string)
    ensures FindParameter(ps, code).Some? ==>
      FindParameter(ps, code).value in ps && FindParameter(ps, code).value.code == code
    ensures FindParameter(ps, code).Some? <==> code in ParameterCodes(ps)
  {
    var n := |ps| - 1;
    if n >= 0 {
      assert ps[n].code in ParameterCodes(ps);
      if ps[n].code != code {
        FindParameterMember(ps[..n], code);
        if code in ParameterCodes(ps) {
          var i :| 0 <= i < |ps| && ps[i].code == code;
          assert ps[..n][i].code == code;
        }
        if code in ParameterCodes(ps[..n]) {
          var i :| 0 <= i < n && ps[..n][i].code == code;
          assert ps[i].code == code;
        }
      }
    }
  }

  lemma {:induction false} SortedCodesMembers(codes: set<string>, key: string -> Key)
    ensures var r := SortBy(SortedTexts(codes), key);
      (forall i :: 0 <= i < |r| ==> r[i] in codes) && (forall c :: c in codes ==> c in r) && |r| == |codes|
  {
    hide SortBy, SortedTexts, KeyLess, TextLess;
    var list := SortedTexts(codes);
    var r := SortBy(list, key);
    SortedTextsProps(codes);
    SortProps(list, key);
    forall i | 0 <= i < |r| ensures r[i] in codes { MemberOfPermutation(list, r, i); }
  }

  lemma {:induction false} BuiltPlanComplete(columns: map<string, Column>, selected: seq<CurrentParameter>)
    ensures PlanComplete(BuildPlan(columns, selected))
  {
    hide SortBy, SortedTexts, PlanCoordinate, ParameterCodes, CoordinateOrder, BaselineOrder;
    var all := columns.Keys + ParameterCodes(selected);
    SortedCodesMembers(all, CoordinateOrder(columns, selected));
    SortedCodesMembers(ParameterCodes(selected), CoordinateOrder(columns, selected));
    SortedCodesMembers(columns.Keys, BaselineOrder(columns));
  }

  lemma {:induction false} PreparedPlanComplete(l: LayerInput)
    requires PrepareLayer(l).Ok?
    ensures PlanComplete(PrepareLayer(l).value.plan)
  {
    hide SelectParameters, StoredCodes, BuildPlan, PrepareConditions, TypesAgree, PlanComplete;
    BuiltPlanComplete(BaselineColumns(l), SelectParameters(l.parameters, StoredCodes(l.conditions)).value);
  }

  /** compare_backbone_layer */
  function CompareLayer(l: LayerInput): Result<LayerResult, DiffError> {
    var p :- PrepareLayer(l);
    PreparedPlanComplete(l);
    Ok(ComparePrepared(p))
  }
}
