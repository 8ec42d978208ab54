/**
 * Frozen baseline snapshots (backend/app/domain/backbone/snapshot.py): construction, parsing of
 * JSON documents, serialisation, and the cache of parsed column lists.
 *
 * A document is a JSON value whose objects are dictionaries, so their keys are strictly sorted.
 */
module BaselineSnapshot {
  import opened Results
  import opened Ordering
  import opened Texts
  import opened Json
  import Calendar
  import Decimals
  import V = Validation

  datatype Source = Source(projectId: int, sheetLayerId: int, layerKey: string, stepSeq: string, layerId: string)

  datatype Column = Column(code: string, valueType: V.ValueType, displayName: string, categoryCode: Option<string>,
      sortOrder: int, activeAtCapture: bool)

  datatype Cell = Cell(code: string, value: string)

  datatype Condition = Condition(sourceId: int, labelText: string, conditionIndex: int, isPor: bool, cells: seq<Cell>)

  /** A UTC time with microseconds. */
  datatype Instant = Instant(year: nat, month: nat, day: nat, hour: nat, minute: nat, second: nat, micro: nat)

  datatype Snapshot = Snapshot(batchId: string, capturedAt: Instant, source: Source, columns: seq<Column>,
      conditions: seq<Condition>)

  /** `OutOfRange`: a well-formed time text that names no time raises a ValueError. */
  datatype SnapshotError = BaselineUnavailable | InvalidSnapshot | OutOfRange

  // ---------------------------------------------------------------- lookups and orders

  function FindColumn(columns: seq<Column>, code: string): Option<Column> {
    if |columns| == 0 then None
    else if columns[|columns| - 1].code == code then Some(columns[|columns| - 1])
    else FindColumn(columns[..|columns| - 1], code)
  }

  function ColumnKey(c: Column): Key { [Num(c.sortOrder), Txt(c.code)] }

  function ConditionKey(c: Condition): Key { [Num(c.conditionIndex), Num(c.sourceId)] }

  function CellKey(c: Cell): Key { [Txt(c.code)] }

  predicate DistinctColumns(columns: seq<Column>) {
    forall i, j :: 0 <= i < j < |columns| ==> columns[i].code != columns[j].code
  }

  predicate DistinctConditions(conditions: seq<Condition>) {
    && (forall i, j :: 0 <= i < j < |conditions| ==> conditions[i].sourceId != conditions[j].sourceId)
    && (forall i, j :: 0 <= i < j < |conditions| ==> conditions[i].conditionIndex != conditions[j].conditionIndex)
  }

  predicate SortedCells(cells: seq<Cell>) {
    forall i, j :: 0 <= i < j < |cells| ==> TextLess(cells[i].code, cells[j].code)
  }

  lemma {:induction false} FindColumnMember(columns: seq<Column>, code: string)
    ensures FindColumn(columns, code).Some? ==>
      FindColumn(columns, code).value in columns && FindColumn(columns, code).value.code == code
    ensures FindColumn(columns, code).None? ==> forall i :: 0 <= i < |columns| ==> columns[i].code != code
  {
    var n := |columns| - 1;
    if n >= 0 && columns[n].code != code { FindColumnMember(columns[..n], code); }
  }

  lemma {:induction false} FindColumnAt(columns: seq<Column>, i: nat)
    requires DistinctColumns(columns) && i < |columns|
    ensures FindColumn(columns, columns[i].code) == Some(columns[i])
  {
    FindColumnMember(columns, columns[i].code);
    if FindColumn(columns, columns[i].code).Some? {
      var k := IndexOf(columns, FindColumn(columns, columns[i].code).value);
    }
  }

  lemma {:induction false} FoundInPermutation(xs: seq<Column>, ys: seq<Column>, code: string)
    requires multiset(xs) == multiset(ys) && FindColumn(ys, code).Some?
    ensures FindColumn(xs, code).Some?
  {
    SameMembers(xs, ys);
    FindColumnMember(ys, code);
    FindColumnMember(xs, code);
    var k := IndexOf(xs, FindColumn(ys, code).value);
  }

  /** Lookups do not depend on the order of distinct columns. */
  lemma {:induction false} FindColumnShuffled(xs: seq<Column>, ys: seq<Column>, code: string)
    requires multiset(xs) == multiset(ys) && DistinctColumns(ys)
    ensures FindColumn(xs, code) == FindColumn(ys, code)
  {
    if FindColumn(ys, code).Some? { FoundInPermutation(xs, ys, code); }
    if FindColumn(xs, code).Some? {
      SameMembers(xs, ys);
      FindColumnMember(xs, code);
      FindColumnAt(ys, IndexOf(ys, FindColumn(xs, code).value));
    }
  }

  // ---------------------------------------------------------------- what fields may hold

  predicate IsHex32(s: string) { |s| == 32 && forall i :: 0 <= i < 32 ==> '0' <= s[i] <= '9' || 'a' <= s[i] <= 'f' }

  predicate ValidInstant(t: Instant) {
    && 1 <= t.year <= 9999 && Calendar.ValidDate(t.year, t.month, t.day)
    && t.hour <= 23 && t.minute <= 59 && t.second <= 59 && t.micro <= 999_999
  }

  predicate ValidSource(s: Source) {
    s.projectId > 0 && s.sheetLayerId > 0 && s.layerKey != "" && s.stepSeq != "" && s.layerId != ""
  }

  predicate ValidColumn(c: Column) {
    c.code != "" && c.displayName != "" && c.categoryCode != Some("") && c.sortOrder >= 0
  }

  predicate ValidHeader(c: Condition) { c.sourceId > 0 && c.labelText != "" && c.conditionIndex >= 0 }

  function CanonicalCellValue(t: V.ValueType, value: string): Result<string, SnapshotError> {
    match t
    case Number => (match Decimals.Normalize(value) case Ok(text) => Ok(text) case Err(_) => Err(InvalidSnapshot))
    case Choice => if value == "" then Err(InvalidSnapshot) else Ok(value)
    case Text => Ok(value)
  }

  /** A value `_canonical_cell_value` can return. */
  ghost predicate StoredValue(t: V.ValueType, value: string) {
    (t.Number? ==> Decimals.Canonical(value)) && (t.Choice? ==> value != "")
  }

  ghost predicate StoredCell(columns: seq<Column>, cell: Cell) {
    var column := FindColumn(columns, cell.code);
    cell.code != "" && column.Some? && StoredValue(column.value.valueType, cell.value)
  }

  ghost predicate StoredCondition(columns: seq<Column>, c: Condition) {
    ValidHeader(c) && SortedCells(c.cells) && forall i :: 0 <= i < |c.cells| ==> StoredCell(columns, c.cells[i])
  }

  /** What every constructed or parsed snapshot satisfies. */
  ghost predicate WellFormed(s: Snapshot) {
    && IsHex32(s.batchId) && ValidInstant(s.capturedAt) && ValidSource(s.source)
    && (forall i :: 0 <= i < |s.columns| ==> ValidColumn(s.columns[i]))
    && DistinctColumns(s.columns) && DistinctConditions(s.conditions)
    && (forall i :: 0 <= i < |s.conditions| ==> StoredCondition(s.columns, s.conditions[i]))
  }

  // ---------------------------------------------------------------- constructing

  function CanonicalCells(columns: seq<Column>, cells: seq<Cell>): Result<seq<Cell>, SnapshotError> {
    if |cells| == 0 then Ok([])
    else if cells[0].code == "" || FindColumn(columns, cells[0].code).None? then Err(InvalidSnapshot)
    else
      var value :- CanonicalCellValue(FindColumn(columns, cells[0].code).value.valueType, cells[0].value);
      var rest :- CanonicalCells(columns, cells[1..]);
      Ok([Cell(cells[0].code, value)] + rest)
  }

  /** BackboneSnapshotCondition, then the canonical values of `_canonicalize_conditions`. */
  function MakeCondition(columns: seq<Column>, c: Condition): Result<Condition, SnapshotError> {
    if !ValidHeader(c) || !DistinctKeys(c.cells, CellKey) then Err(InvalidSnapshot)
    else
      var cells :- CanonicalCells(columns, SortBy(c.cells, CellKey));
      Ok(c.(cells := cells))
  }

  function MakeConditions(columns: seq<Column>, cs: seq<Condition>): Result<seq<Condition>, SnapshotError> {
    if |cs| == 0 then Ok([])
    else
      var first :- MakeCondition(columns, cs[0]);
      var rest :- MakeConditions(columns, cs[1..]);
      Ok([first] + rest)
  }

  /** BackboneSnapshot: keeps the given order of columns and conditions. */
  function MakeSnapshot(batchId: string, capturedAt: Instant, source: Source, columns: seq<Column>,
      conditions: seq<Condition>): Result<Snapshot, SnapshotError> {
    if !IsHex32(batchId) || !ValidInstant(capturedAt) || !ValidSource(source) then Err(InvalidSnapshot)
    else if !(forall i :: 0 <= i < |columns| ==> ValidColumn(columns[i])) then Err(InvalidSnapshot)
    else
      var canonical :- MakeConditions(columns, conditions);
      if !DistinctColumns(columns) || !DistinctConditions(canonical) then Err(InvalidSnapshot)
      else Ok(Snapshot(batchId, capturedAt, source, columns, canonical))
  }

  lemma {:induction false} CanonicalCellsStored(columns: seq<Column>, cells: seq<Cell>)
    requires CanonicalCells(columns, cells).Ok?
    ensures var r := CanonicalCells(columns, cells).value;
      |r| == |cells| && forall i :: 0 <= i < |r| ==> StoredCell(columns, r[i]) && r[i].code == cells[i].code
  {
    hide FindColumn, Decimals.Normalize, Decimals.Canonical;
    if |cells| > 0 {
      CanonicalCellsStored(columns, cells[1..]);
      CanonicalValueStored(FindColumn(columns, cells[0].code).value.valueType, cells[0].value);
    }
  }

  lemma {:induction false} CanonicalValueStored(t: V.ValueType, value: string)
    requires CanonicalCellValue(t, value).Ok?
    ensures StoredValue(t, CanonicalCellValue(t, value).value)
  {
    hide Decimals.Normalize, Decimals.Canonical;
    if t.Number? { Decimals.NormalizePreservesValue(value); }
  }

  lemma {:induction false} CellKeyLess(a: Cell, b: Cell)
    ensures KeyLess(CellKey(a), CellKey(b)) <==> TextLess(a.code, b.code)
  {
    TextTotal(a.code, b.code);
    assert CellKey(a)[1..] == [] && CellKey(b)[1..] == [];
  }

  lemma {:induction false} MakeConditionStored(columns: seq<Column>, c: Condition)
    requires MakeCondition(columns, c).Ok?
    ensures StoredCondition(columns, MakeCondition(columns, c).value)
  {
    hide CanonicalCells, SortBy, KeyLess, TextLess, StoredCell, CellKey;
    var sorted := SortBy(c.cells, CellKey);
    SortProps(c.cells, CellKey);
    CanonicalCellsStored(columns, sorted);
    forall i, j | 0 <= i < j < |sorted| ensures TextLess(sorted[i].code, sorted[j].code) {
      CellKeyLess(sorted[i], sorted[j]);
    }
  }

  lemma {:induction false} MakeConditionsStored(columns: seq<Column>, cs: seq<Condition>)
    requires MakeConditions(columns, cs).Ok?
    ensures var r := MakeConditions(columns, cs).value;
      |r| == |cs| && forall i :: 0 <= i < |r| ==>
        MakeCondition(columns, cs[i]) == Ok(r[i]) && StoredCondition(columns, r[i])
  {
    hide MakeCondition, StoredCondition;
    if |cs| > 0 {
      MakeConditionStored(columns, cs[0]);
      MakeConditionsStored(columns, cs[1..]);
    }
  }

  /** The constructor only builds well-formed snapshots. */
  lemma {:induction false} MadeWellFormed(batchId: string, capturedAt: Instant, source: Source, columns: seq<Column>,
      conditions: seq<Condition>)
    requires MakeSnapshot(batchId, capturedAt, source, columns, conditions).Ok?
    ensures WellFormed(MakeSnapshot(batchId, capturedAt, source, columns, conditions).value)
  {
    hide MakeConditions, StoredCondition, ValidColumn, ValidInstant, ValidSource, IsHex32;
    MakeConditionsStored(columns, conditions);
  }

  // ---------------------------------------------------------------- times as text

  /** The last `width` decimal digits of `n`. */
  function Padded(n: nat, width: nat): (s: string)
    ensures |s| == width && Calendar.Digits(s)
    decreases width
  {
    if width == 0 then "" else Padded(n / 10, width - 1) + [DigitChar(n % 10)]
  }

  lemma {:induction false} PaddedNumber(n: nat, width: nat)
    requires n < Pow10(width)
    ensures Calendar.Number(Padded(n, width)) == n
    decreases width
  {
    if width > 0 {
      PaddedNumber(n / 10, width - 1);
      var s := Padded(n, width);
      assert s[..|s| - 1] == Padded(n / 10, width - 1);
    }
  }

  function FormatInstant(t: Instant): string {
    Padded(t.year, 4) + "-" + Padded(t.month, 2) + "-" + Padded(t.day, 2) + "T"
    + Padded(t.hour, 2) + ":" + Padded(t.minute, 2) + ":" + Padded(t.second, 2) + "." + Padded(t.micro, 6) + "Z"
  }

  /** One to six digits after the point, as millionths. */
  function Micros(digits: string): nat
    requires 1 <= |digits| <= 6
  {
    Calendar.Number(digits) * Pow10(6 - |digits|)
  }

  /** `YYYY-MM-DDTHH:MM:SS`, an optional fraction of one to six digits, and `Z`. */
  predicate HasTimeShape(s: string) {
    && |s| >= 20 && s[|s| - 1] == 'Z'
    && Calendar.HasPrefix(s) && s[16] == ':' && Calendar.DigitsAt(s, 17, 2)
    && (|s| == 20 || (22 <= |s| <= 27 && s[19] == '.' && Calendar.Digits(s[20..|s| - 1])))
  }

  function ParseInstant(s: string): Result<Instant, SnapshotError> {
    if !HasTimeShape(s) then Err(InvalidSnapshot)
    else
      var t := Instant(Calendar.Number(s[0..4]), Calendar.Number(s[5..7]), Calendar.Number(s[8..10]),
                       Calendar.Number(s[11..13]), Calendar.Number(s[14..16]), Calendar.Number(s[17..19]),
                       if |s| == 20 then 0 else Micros(s[20..|s| - 1]));
      if ValidInstant(t) then Ok(t) else Err(OutOfRange)
  }

  lemma {:induction false} InstantRoundTrip(t: Instant)
    requires ValidInstant(t)
    ensures ParseInstant(FormatInstant(t)) == Ok(t)
  {
    hide Padded, Calendar.Number, Pow10, Calendar.DaysInMonth;
    var s := FormatInstant(t);
    assert s[0..4] == Padded(t.year, 4);
    assert s[5..7] == Padded(t.month, 2);
    assert s[8..10] == Padded(t.day, 2);
    assert s[11..13] == Padded(t.hour, 2);
    assert s[14..16] == Padded(t.minute, 2);
    assert s[17..19] == Padded(t.second, 2);
    assert s[20..26] == Padded(t.micro, 6);
    Powers();
    MonthAtMost31(t);
    PaddedNumber(t.year, 4);
    PaddedNumber(t.month, 2);
    PaddedNumber(t.day, 2);
    PaddedNumber(t.hour, 2);
    PaddedNumber(t.minute, 2);
    PaddedNumber(t.second, 2);
    PaddedNumber(t.micro, 6);
  }

  lemma {:induction false} MonthAtMost31(t: Instant)
    requires ValidInstant(t)
    ensures t.day <= 31
  {
  }

  lemma {:induction false} Powers()
    ensures Pow10(0) == 1 && Pow10(2) == 100 && Pow10(4) == 10_000 && Pow10(6) == 1_000_000
  {
    assert Pow10(3) == 1000;
    assert Pow10(5) == 100_000;
  }

  // ---------------------------------------------------------------- documents

  function TypeName(t: V.ValueType): string {
    match t case Number => "number" case Text => "text" case Choice => "choice"
  }

  function SourceOut(s: Source): seq<Field> {
    [Field("layer_id", Str(s.layerId)), Field("layer_key", Str(s.layerKey)), Field("project_id", Int(s.projectId)),
     Field("sheet_layer_id", Int(s.sheetLayerId)), Field("step_seq", Str(s.stepSeq))]
  }

  function ColumnOut(c: Column): seq<Field> {
    [Field("active_at_capture", Bool(c.activeAtCapture)), Field("category_code", OptionalStr(c.categoryCode)),
     Field("display_name", Str(c.displayName)), Field("parameter_code", Str(c.code)),
     Field("sort_order", Int(c.sortOrder)),
     Field("value_type", Str(TypeName(c.valueType)))]
  }

  function CellsOut(cells: seq<Cell>): (r: seq<Field>)
    ensures |r| == |cells| && forall i :: 0 <= i < |r| ==> r[i] == Field(cells[i].code, Str(cells[i].value))
  {
    seq(|cells|, i requires 0 <= i < |cells| => Field(cells[i].code, Str(cells[i].value)))
  }

  function ConditionOut(c: Condition): seq<Field> {
    [Field("cells", Obj(CellsOut(c.cells))), Field("condition_index", Int(c.conditionIndex)),
      Field("is_por", Bool(c.isPor)),
     Field("label", Str(c.labelText)), Field("source_condition_id", Int(c.sourceId))]
  }

  function ColumnsOut(cs: seq<Column>): (r: seq<Json>)
    ensures |r| == |cs| && forall i :: 0 <= i < |r| ==> r[i] == Obj(ColumnOut(cs[i]))
  {
    seq(|cs|, i requires 0 <= i < |cs| => Obj(ColumnOut(cs[i])))
  }

  function ConditionsOut(cs: seq<Condition>): (r: seq<Json>)
    ensures |r| == |cs| && forall i :: 0 <= i < |r| ==> r[i] == Obj(ConditionOut(cs[i]))
  {
    seq(|cs|, i requires 0 <= i < |cs| => Obj(ConditionOut(cs[i])))
  }

  /** serialize_backbone_snapshot of a snapshot. */
  function Serialize(s: Snapshot): Json {
    Obj([Field("capture_batch_id", Str(s.batchId)), Field("captured_at", Str(FormatInstant(s.capturedAt))),
         Field("columns", Arr(ColumnsOut(SortBy(s.columns, ColumnKey)))),
         Field("conditions", Arr(ConditionsOut(SortBy(s.conditions, ConditionKey)))),
         Field("schema_version", Int(1)), Field("source", Obj(SourceOut(s.source)))])
  }

  // ---------------------------------------------------------------- parsing

  function NeedText(v: Option<Json>): Result<string, SnapshotError> {
    match v case Some(Str(s)) => if s == "" then Err(InvalidSnapshot) else Ok(s) case _ => Err(InvalidSnapshot)
  }

  function NeedInt(v: Option<Json>, minimum: int): Result<int, SnapshotError> {
    match v case Some(Int(n)) => if n < minimum then Err(InvalidSnapshot) else Ok(n) case _ => Err(InvalidSnapshot)
  }

  function NeedBool(v: Option<Json>): Result<bool, SnapshotError> {
    match v case Some(Bool(b)) => Ok(b) case _ => Err(InvalidSnapshot)
  }

  function NeedOptionalText(v: Option<Json>): Result<Option<string>, SnapshotError> {
    if v == Some(Null) then Ok(None)
    else
      var t :- NeedText(v);
      Ok(Some(t))
  }

  function NeedType(v: Option<Json>): Result<V.ValueType, SnapshotError> {
    match v
    case Some(Str(s)) =>
      if s == "number" then Ok(V.Number) else if s == "text" then Ok(V.Text) else if s == "choice" then Ok(V.Choice)
        else Err(InvalidSnapshot)
    case _ => Err(InvalidSnapshot)
  }

  function NeedFields(v: Option<Json>, keys: seq<string>): Result<seq<Field>, SnapshotError> {
    match v case Some(Obj(fields)) => if ExactKeys(fields,
      keys) then Ok(fields) else Err(InvalidSnapshot) case _ => Err(InvalidSnapshot)
  }

  function ParseSource(v: Option<Json>): Result<Source, SnapshotError> {
    var f :- NeedFields(v, ["layer_id", "layer_key", "project_id", "sheet_layer_id", "step_seq"]);
    var projectId :- NeedInt(Get(f, "project_id"), 1);
    var sheetLayerId :- NeedInt(Get(f, "sheet_layer_id"), 1);
    var layerKey :- NeedText(Get(f, "layer_key"));
    var stepSeq :- NeedText(Get(f, "step_seq"));
    var layerId :- NeedText(Get(f, "layer_id"));
    Ok(Source(projectId, sheetLayerId, layerKey, stepSeq, layerId))
  }

  function ParseColumn(v: Json): Result<Column, SnapshotError> {
    var f :- NeedFields(Some(v), ["active_at_capture", "category_code", "display_name", "parameter_code", "sort_order",
      "value_type"]);
    var categoryCode :- NeedOptionalText(Get(f, "category_code"));
    var code :- NeedText(Get(f, "parameter_code"));
    var valueType :- NeedType(Get(f, "value_type"));
    var displayName :- NeedText(Get(f, "display_name"));
    var sortOrder :- NeedInt(Get(f, "sort_order"), 0);
    var active :- NeedBool(Get(f, "active_at_capture"));
    Ok(Column(code, valueType, displayName, categoryCode, sortOrder, active))
  }

  function ParseColumnList(items: seq<Json>): Result<seq<Column>, SnapshotError> {
    if |items| == 0 then Ok([])
    else
      var before :- ParseColumnList(items[..|items| - 1]);
      var last :- ParseColumn(items[|items| - 1]);
      Ok(before + [last])
  }

  function ParseColumns(v: Option<Json>): Result<seq<Column>, SnapshotError> {
    match v
    case Some(Arr(items)) =>
      var columns :- ParseColumnList(items);
      if DistinctColumns(columns) then Ok(SortBy(columns, ColumnKey)) else Err(InvalidSnapshot)
    case _ => Err(InvalidSnapshot)
  }

  function ParseCell(f: Field, columns: seq<Column>): Result<Cell, SnapshotError> {
    if FindColumn(columns, f.key).None? || !f.value.Str? then Err(InvalidSnapshot)
    else
      var value :- CanonicalCellValue(FindColumn(columns, f.key).value.valueType, f.value.s);
      Ok(Cell(f.key, value))
  }

  /** The fields of a dictionary come sorted by key. */
  function ParseCells(fields: seq<Field>, columns: seq<Column>): Result<seq<Cell>, SnapshotError> {
    if |fields| == 0 then Ok([])
    else
      var before :- ParseCells(fields[..|fields| - 1], columns);
      var last :- ParseCell(fields[|fields| - 1], columns);
      Ok(before + [last])
  }

  function ParseCondition(v: Json, columns: seq<Column>): Result<Condition, SnapshotError> {
    var f :- NeedFields(Some(v), ["cells", "condition_index", "is_por", "label", "source_condition_id"]);
    var cellFields :- NeedDictionary(Get(f, "cells"));
    var cells :- ParseCells(cellFields, columns);
    ParseHeader(Get(f, "source_condition_id"), Get(f, "label"), Get(f, "condition_index"), Get(f, "is_por"), cells)
  }

  function ParseHeader(id: Option<Json>, text: Option<Json>, index: Option<Json>, por: Option<Json>,
      cells: seq<Cell>): Result<Condition, SnapshotError> {
    var sourceId :- NeedInt(id, 1);
    var labelText :- NeedText(text);
    var conditionIndex :- NeedInt(index, 0);
    var isPor :- NeedBool(por);
    Ok(Condition(sourceId, labelText, conditionIndex, isPor, cells))
  }

  function NeedDictionary(v: Option<Json>): Result<seq<Field>, SnapshotError> {
    match v case Some(Obj(fields)) => Ok(fields) case _ => Err(InvalidSnapshot)
  }

  function ParseConditionList(items: seq<Json>, columns: seq<Column>): Result<seq<Condition>, SnapshotError> {
    if |items| == 0 then Ok([])
    else
      var before :- ParseConditionList(items[..|items| - 1], columns);
      var last :- ParseCondition(items[|items| - 1], columns);
      Ok(before + [last])
  }

  function ParseConditions(v: Option<Json>, columns: seq<Column>): Result<seq<Condition>, SnapshotError> {
    match v
    case Some(Arr(items)) =>
      var conditions :- ParseConditionList(items, columns);
      if DistinctConditions(conditions) then Ok(SortBy(conditions, ConditionKey)) else Err(InvalidSnapshot)
    case _ => Err(InvalidSnapshot)
  }

  function NeedBatchId(v: Option<Json>): Result<string, SnapshotError> {
    match v case Some(Str(s)) => if IsHex32(s) then Ok(s) else Err(InvalidSnapshot) case _ => Err(InvalidSnapshot)
  }

  function NeedInstant(v: Option<Json>): Result<Instant, SnapshotError> {
    match v case Some(Str(s)) => ParseInstant(s) case _ => Err(InvalidSnapshot)
  }

  /** parse_backbone_snapshot of a JSON document, without a cache. */
  function Parse(raw: Json): Result<Snapshot, SnapshotError> {
    if raw.Null? then Err(BaselineUnavailable)
    else
      var f :- NeedFields(Some(raw),
        ["capture_batch_id", "captured_at", "columns", "conditions", "schema_version", "source"]);
      var source :- ParseSource(Get(f, "source"));
      var columns :- ParseColumns(Get(f, "columns"));
      AssembleSnapshot(f, source, columns)
  }

  function AssembleSnapshot(f: seq<Field>, source: Source, columns: seq<Column>): Result<Snapshot, SnapshotError> {
    var conditions :- ParseConditions(Get(f, "conditions"), columns);
    FinishSnapshot(Get(f, "schema_version"), Get(f, "capture_batch_id"), Get(f, "captured_at"), source, columns,
      conditions)
  }

  function FinishSnapshot(version: Option<Json>, batch: Option<Json>, captured: Option<Json>, source: Source,
      columns: seq<Column>, conditions: seq<Condition>): Result<Snapshot, SnapshotError> {
    if version != Some(Int(1)) then Err(InvalidSnapshot)
    else
      var batchId :- NeedBatchId(batch);
      var capturedAt :- NeedInstant(captured);
      Ok(Snapshot(batchId, capturedAt, source, columns, conditions))
  }
}
