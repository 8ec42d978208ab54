/**
 * Parsing and serialising baseline snapshots undo each other, and the request-local cache of
 * column lists changes no result (backend/app/domain/backbone/snapshot.py).
 */
module SnapshotLaws {
  import opened Results
  import opened Ordering
  import opened Json
  import opened BaselineSnapshot
  import Decimals
  import V = Validation

  // ---------------------------------------------------------------- the program's loops and cache

  /** Reads a column list and checks that no code repeats. */
  method ReadColumns(v: Option<Json>) returns (r: Result<seq<Column>, SnapshotError>)
    ensures r == ParseColumns(v)
  {
    hide ParseColumn;
    if v.None? || !v.value.Arr? { return Err(InvalidSnapshot); }
    var items := v.value.items;
    var parsed: seq<Column> := [];
    var i := 0;
    while i < |items|
      invariant i <= |items| && ParseColumnList(items[..i]) == Ok(parsed)
    {
      var column := ParseColumn(items[i]);
      ColumnListNext(items, i);
      if column.Err? {
        ColumnListFails(items, i + 1);
        return Err(column.error);
      }
      parsed := parsed + [column.value];
      i := i + 1;
    }
    assert items[..i] == items;
    var seen: set<string> := {};
    i := 0;
    while i < |parsed|
      invariant i <= |parsed| && DistinctColumns(parsed[..i])
      invariant forall code :: code in seen <==> exists k :: 0 <= k < i && parsed[k].code == code
    {
      if parsed[i].code in seen { return Err(InvalidSnapshot); }
      seen := seen + {parsed[i].code};
      i := i + 1;
    }
    assert parsed[..i] == parsed;
    return Ok(SortBy(parsed, ColumnKey));
  }

  lemma {:induction false} ColumnListNext(items: seq<Json>, i: nat)
    requires i < |items|
    ensures ParseColumnList(items[..i + 1]) == match ParseColumnList(items[..i])
      case Err(e) => Err(e)
      case Ok(before) => match ParseColumn(items[i]) case Err(e) => Err(e) case Ok(last) => Ok(before + [last])
  {
    hide ParseColumn;
    assert items[..i + 1][..i] == items[..i];
  }

  lemma {:induction false} ColumnListFails(items: seq<Json>, i: nat)
    requires i <= |items| && ParseColumnList(items[..i]).Err?
    ensures ParseColumnList(items) == ParseColumnList(items[..i])
    decreases |items| - i
  {
    if i < |items| {
      ColumnListNext(items, i);
      ColumnListFails(items, i + 1);
    } else {
      assert items[..i] == items;
    }
  }

  /** BackboneSnapshotParseCache: parsed column lists by the canonical text of their document. */
  class ParseCache {
    var columnsByPayload: map<string, seq<Column>>

    /** Every entry is what parsing a document of that text gives. */
    ghost predicate Valid()
      reads this
    {
      forall raw: Json :: Canonical(raw) && Print(raw) in columnsByPayload ==>
        ParseColumns(Some(raw)) == Ok(columnsByPayload[Print(raw)])
    }

    constructor ()
      ensures Valid() && columnsByPayload == map[]
    {
      columnsByPayload := map[];
    }

    /** Cached column parsing equals uncached parsing. */
    method ParseColumnsCached(raw: Json) returns (r: Result<seq<Column>, SnapshotError>)
      requires Valid() && Canonical(raw)
      modifies this
      ensures Valid() && r == ParseColumns(Some(raw))
    {
      hide ParseColumns, Print, Canonical;
      var payloadKey := Print(raw);
      if payloadKey in columnsByPayload { return Ok(columnsByPayload[payloadKey]); }
      r := ReadColumns(Some(raw));
      if r.Ok? {
        columnsByPayload := columnsByPayload[payloadKey := r.value];
        forall other: Json | Canonical(other) && Print(other) in columnsByPayload
          ensures ParseColumns(Some(other)) == Ok(columnsByPayload[Print(other)]) {
          if Print(other) == payloadKey {
            LoadDumped(raw);
            LoadDumped(other);
          }
        }
      }
    }

    /** parse_backbone_snapshot with a shared cache. */
    method ParseSnapshot(raw: Json) returns (r: Result<Snapshot, SnapshotError>)
      requires Valid() && Canonical(raw)
      modifies this
      ensures Valid() && r == Parse(raw)
    {
      hide ParseColumns, ParseSource, AssembleSnapshot, Canonical, ExactKeys, Get;
      if raw.Null? { return Err(BaselineUnavailable); }
      var f := NeedFields(Some(raw),
        ["capture_batch_id", "captured_at", "columns", "conditions", "schema_version", "source"]);
      if f.Err? { return Err(f.error); }
      var source := ParseSource(Get(f.value, "source"));
      if source.Err? { return Err(source.error); }
      var rawColumns := Get(f.value, "columns");
      var columns;
      if rawColumns.Some? {
        DictionaryMember(f.value, "columns") by { assert raw == Obj(f.value); ObjectFields(raw); }
        columns := ParseColumnsCached(rawColumns.value);
      } else {
        columns := ReadColumns(None);
      }
      if columns.Err? { return Err(columns.error); }
      r := AssembleSnapshot(f.value, source.value, columns.value);
    }
  }

  lemma {:induction false} ObjectFields(v: Json)
    requires Canonical(v) && v.Obj?
    ensures CanonicalFields(v.fields)
  {
  }

  lemma {:induction false} DictionaryMember(fields: seq<Field>, key: string)
    requires CanonicalFields(fields) && Get(fields, key).Some?
    ensures Canonical(Get(fields, key).value)
  {
    hide Canonical;
    if fields[0].key != key { DictionaryMember(fields[1..], key); }
  }

  // ---------------------------------------------------------------- what parsing establishes

  lemma {:induction false} ParsedCells(fields: seq<Field>, columns: seq<Column>)
    requires ParseCells(fields, columns).Ok? && forall i :: 0 <= i < |columns| ==> ValidColumn(columns[i])
    ensures var r := ParseCells(fields, columns).value;
      |r| == |fields| && forall i :: 0 <= i < |r| ==> StoredCell(columns, r[i]) && r[i].code == fields[i].key
  {
    hide FindColumn, Decimals.Normalize, Decimals.Canonical;
    var n := |fields| - 1;
    if n >= 0 {
      ParsedCells(fields[..n], columns);
      CanonicalValueStored(FindColumn(columns, fields[n].key).value.valueType, fields[n].value.s);
      FindColumnMember(columns, fields[n].key);
      var k := IndexOf(columns, FindColumn(columns, fields[n].key).value);
    }
  }

  lemma {:induction false} HeaderParsed(id: Option<Json>, text: Option<Json>, index: Option<Json>, por: Option<Json>,
      cells: seq<Cell>)
    requires ParseHeader(id, text, index, por, cells).Ok?
    ensures ValidHeader(ParseHeader(id, text, index, por, cells).value)
    ensures ParseHeader(id, text, index, por, cells).value.cells == cells
  {
  }

  lemma {:induction false} ParsedCondition(v: Json, columns: seq<Column>)
    requires Canonical(v) && ParseCondition(v, columns).Ok? && forall i :: 0 <= i < |columns| ==>
      ValidColumn(columns[i])
    ensures StoredCondition(columns, ParseCondition(v, columns).value)
  {
    ObjectFields(v);
    DictionaryMember(v.fields, "cells");
    CellsSorted(Get(v.fields, "cells").value);
    hide Canonical, CanonicalFields, ParseHeader, ParseCells, FindColumn, StoredCell, ExactKeys, Get, TextLess,
         ValidHeader, ValidColumn;
    var f := v.fields;
    var fields := Get(f, "cells").value.fields;
    ParsedCells(fields, columns);
    HeaderParsed(Get(f, "source_condition_id"), Get(f, "label"), Get(f, "condition_index"), Get(f, "is_por"),
      ParseCells(fields, columns).value);
  }

  lemma {:induction false} CellsSorted(v: Json)
    requires Canonical(v) && v.Obj?
    ensures SortedKeys(v.fields)
  {
  }

  lemma {:induction false} ParsedColumn(v: Json)
    requires ParseColumn(v).Ok?
    ensures ValidColumn(ParseColumn(v).value)
  {
    hide ExactKeys, Get;
  }

  lemma {:induction false} ParsedColumnList(items: seq<Json>)
    requires ParseColumnList(items).Ok?
    ensures forall i :: 0 <= i < |ParseColumnList(items).value| ==> ValidColumn(ParseColumnList(items).value[i])
  {
    hide ParseColumn, ValidColumn;
    var n := |items| - 1;
    if n >= 0 {
      ParsedColumnList(items[..n]);
      ParsedColumn(items[n]);
    }
  }

  lemma {:induction false} SortedStillDistinct(columns: seq<Column>)
    requires DistinctColumns(columns)
    ensures multiset(SortBy(columns, ColumnKey)) == multiset(columns) && DistinctColumns(SortBy(columns, ColumnKey))
    ensures StrictlySorted(SortBy(columns, ColumnKey), ColumnKey)
  {
    hide SortBy, KeyLess;
    SortProps(columns, ColumnKey);
    ColumnKeysDistinct(columns);
    hide ColumnKey;
    DistinctCodeKeys(columns);
    DistinctKeysOfPermutation(columns, SortBy(columns, ColumnKey), CodeOfColumn);
    CodesFromKeys(SortBy(columns, ColumnKey));
  }

  function CodeOfColumn(c: Column): Key { [Txt(c.code)] }

  lemma {:induction false} DistinctCodeKeys(columns: seq<Column>)
    requires DistinctColumns(columns)
    ensures DistinctKeys(columns, CodeOfColumn)
  {
    forall i, j | 0 <= i < j < |columns| ensures CodeOfColumn(columns[i]) != CodeOfColumn(columns[j]) {
      assert CodeOfColumn(columns[i])[0].s != CodeOfColumn(columns[j])[0].s;
    }
  }

  lemma {:induction false} CodesFromKeys(columns: seq<Column>)
    requires DistinctKeys(columns, CodeOfColumn)
    ensures DistinctColumns(columns)
  {
  }

  lemma {:induction false} ColumnKeysDistinct(columns: seq<Column>)
    requires DistinctColumns(columns)
    ensures DistinctKeys(columns, ColumnKey)
  {
    forall i, j | 0 <= i < j < |columns| ensures ColumnKey(columns[i]) != ColumnKey(columns[j]) {
      assert ColumnKey(columns[i])[1].s != ColumnKey(columns[j])[1].s;
    }
  }

  lemma {:induction false} ConditionKeysDistinct(cs: seq<Condition>)
    requires DistinctConditions(cs)
    ensures DistinctKeys(cs, ConditionKey)
  {
    forall i, j | 0 <= i < j < |cs| ensures ConditionKey(cs[i]) != ConditionKey(cs[j]) {
      assert ConditionKey(cs[i])[1].n != ConditionKey(cs[j])[1].n;
    }
  }

  function SourceIdOf(c: Condition): Key { [Num(c.sourceId)] }

  function IndexOfCondition(c: Condition): Key { [Num(c.conditionIndex)] }

  lemma {:induction false} DistinctConditionKeys(cs: seq<Condition>)
    ensures DistinctConditions(cs) <==> DistinctKeys(cs, SourceIdOf) && DistinctKeys(cs, IndexOfCondition)
  {
    forall i, j | 0 <= i < j < |cs|
      ensures SourceIdOf(cs[i]) == SourceIdOf(cs[j]) <==> cs[i].sourceId == cs[j].sourceId
      ensures IndexOfCondition(cs[i]) == IndexOfCondition(cs[j]) <==> cs[i].conditionIndex == cs[j].conditionIndex
    {
      assert SourceIdOf(cs[i])[0].n == cs[i].sourceId && SourceIdOf(cs[j])[0].n == cs[j].sourceId;
      assert IndexOfCondition(cs[i])[0].n == cs[i].conditionIndex
        && IndexOfCondition(cs[j])[0].n == cs[j].conditionIndex;
    }
  }

  lemma {:induction false} SortedConditionsDistinct(cs: seq<Condition>)
    requires DistinctConditions(cs)
    ensures multiset(SortBy(cs, ConditionKey)) == multiset(cs) && DistinctConditions(SortBy(cs, ConditionKey))
    ensures StrictlySorted(SortBy(cs, ConditionKey), ConditionKey)
  {
    hide SortBy, KeyLess, DistinctConditions;
    var sorted := SortBy(cs, ConditionKey);
    SortProps(cs, ConditionKey);
    ConditionKeysDistinct(cs);
    DistinctConditionKeys(cs);
    DistinctConditionKeys(sorted);
    DistinctKeysOfPermutation(cs, sorted, SourceIdOf);
    DistinctKeysOfPermutation(cs, sorted, IndexOfCondition);
  }

  // ---------------------------------------------------------------- canonical order

  /** The snapshot with its columns and conditions in canonical order. */
  function Ordered(s: Snapshot): Snapshot {
    s.(columns := SortBy(s.columns, ColumnKey), conditions := SortBy(s.conditions, ConditionKey))
  }

  ghost predicate InCanonicalOrder(s: Snapshot) {
    StrictlySorted(s.columns, ColumnKey) && StrictlySorted(s.conditions, ConditionKey)
  }

  lemma {:induction false} OrderedFixed(s: Snapshot)
    requires InCanonicalOrder(s)
    ensures Ordered(s) == s
  {
    hide SortBy, KeyLess, StrictlySorted;
    StrictIsSorted(s.columns, ColumnKey);
    StrictIsSorted(s.conditions, ConditionKey);
    SortFixed(s.columns, ColumnKey);
    SortFixed(s.conditions, ConditionKey);
  }

  /** Serialising ignores the order of columns and conditions. */
  lemma {:induction false} SerializeIgnoresOrder(s: Snapshot, t: Snapshot)
    requires DistinctColumns(s.columns) && DistinctConditions(s.conditions)
    requires t == s.(columns := t.columns, conditions := t.conditions)
    requires multiset(t.columns) == multiset(s.columns) && multiset(t.conditions) == multiset(s.conditions)
    ensures Serialize(s) == Serialize(t)
  {
    hide SortBy, FormatInstant, ColumnsOut, ConditionsOut;
    ColumnKeysDistinct(s.columns);
    ConditionKeysDistinct(s.conditions);
    SortPermutation(s.columns, t.columns, ColumnKey);
    SortPermutation(s.conditions, t.conditions, ConditionKey);
  }

  /** Parsing gives a well-formed snapshot in canonical order. */
  lemma {:induction false} ParsedWellFormed(raw: Json)
    requires Canonical(raw) && Parse(raw).Ok?
    ensures WellFormed(Parse(raw).value) && InCanonicalOrder(Parse(raw).value)
  {
    ObjectFields(raw);
    hide Canonical, CanonicalFields, CanonicalItems, SortedKeys, ExactKeys, Get, ParseSource, ParseColumns,
         ParseConditions, ParseInstant, IsHex32, StoredCondition, ValidColumn, StrictlySorted, ValidInstant,
         ValidSource, DistinctColumns, DistinctConditions;
    var f := raw.fields;
    var s := Parse(raw).value;
    SourceParsed(Get(f, "source"));
    InstantParsed(Get(f, "captured_at").value.s);
    DictionaryMember(f, "conditions") by { ConditionsPresent(f, s.columns); }
    ColumnsParsed(Get(f, "columns"));
    ConditionsParsed(Get(f, "conditions"), s.columns);
  }

  lemma {:induction false} ConditionsPresent(f: seq<Field>, columns: seq<Column>)
    requires ParseConditions(Get(f, "conditions"), columns).Ok?
    ensures Get(f, "conditions").Some?
  {
    hide Get, ParseConditionList;
  }

  lemma {:induction false} InstantParsed(s: string)
    requires ParseInstant(s).Ok?
    ensures ValidInstant(ParseInstant(s).value)
  {
    hide HasTimeShape, Micros;
  }

  lemma {:induction false} SourceParsed(v: Option<Json>)
    requires ParseSource(v).Ok?
    ensures ValidSource(ParseSource(v).value)
  {
    hide ExactKeys, Get;
  }

  lemma {:induction false} ColumnsParsed(v: Option<Json>)
    requires ParseColumns(v).Ok?
    ensures var r := ParseColumns(v).value;
      && (forall i :: 0 <= i < |r| ==> ValidColumn(r[i])) && DistinctColumns(r) && StrictlySorted(r, ColumnKey)
  {
    hide ParseColumnList, SortBy, KeyLess, ValidColumn, StrictlySorted;
    var list := ParseColumnList(v.value.items).value;
    ParsedColumnList(v.value.items);
    SortedStillDistinct(list);
    var r := SortBy(list, ColumnKey);
    forall i | 0 <= i < |r| ensures ValidColumn(r[i]) {
      MemberOfPermutation(list, r, i);
      var k := IndexOf(list, r[i]);
    }
  }

  lemma {:induction false} ParsedConditionList(items: seq<Json>, columns: seq<Column>)
    requires CanonicalItems(items) && ParseConditionList(items, columns).Ok? && forall i :: 0 <= i < |columns| ==>
      ValidColumn(columns[i])
    ensures forall i :: 0 <= i < |ParseConditionList(items, columns).value| ==>
      StoredCondition(columns, ParseConditionList(items, columns).value[i])
  {
    hide ParseCondition, ValidColumn, StoredCondition, Canonical;
    var n := |items| - 1;
    if n >= 0 {
      CanonicalItemsAt(items, n);
      CanonicalItemsPrefix(items, n);
      ParsedConditionList(items[..n], columns);
      ParsedCondition(items[n], columns);
    }
  }

  lemma {:induction false} CanonicalItemsAt(items: seq<Json>, i: nat)
    requires CanonicalItems(items) && i < |items|
    ensures Canonical(items[i])
  {
    hide Canonical;
    if i > 0 { CanonicalItemsAt(items[1..], i - 1); }
  }

  lemma {:induction false} CanonicalItemsPrefix(items: seq<Json>, n: nat)
    requires CanonicalItems(items) && n <= |items|
    ensures CanonicalItems(items[..n])
  {
    hide Canonical;
    if n > 0 {
      CanonicalItemsPrefix(items[1..], n - 1);
      assert items[..n][1..] == items[1..][..n - 1];
    }
  }

  lemma {:induction false} ConditionsParsed(v: Option<Json>, columns: seq<Column>)
    requires v.Some? && Canonical(v.value) && ParseConditions(v, columns).Ok? && forall i :: 0 <= i < |columns| ==>
      ValidColumn(columns[i])
    ensures var r := ParseConditions(v, columns).value;
      && (forall i :: 0 <= i < |r| ==> StoredCondition(columns, r[i])) && DistinctConditions(r)
        && StrictlySorted(r, ConditionKey)
  {
    hide ParseConditionList, SortBy, KeyLess, ValidColumn, StoredCondition, StrictlySorted, DistinctConditions;
    var list := ParseConditionList(v.value.items, columns).value;
    ParsedConditionList(v.value.items, columns);
    SortedConditionsDistinct(list);
    var r := SortBy(list, ConditionKey);
    forall i | 0 <= i < |r| ensures StoredCondition(columns, r[i]) {
      MemberOfPermutation(list, r, i);
      var k := IndexOf(list, r[i]);
    }
  }

  // ---------------------------------------------------------------- parse after serialise

  /** The stored number is within the digit limit, so it is accepted again. */
  predicate FitsAgain(t: V.ValueType, value: string) {
    t.Number? ==> Decimals.DigitCount(value) <= Decimals.MAX_DECIMAL_DIGITS
  }

  predicate CellFits(columns: seq<Column>, cell: Cell) {
    FindColumn(columns, cell.code).Some? ==> FitsAgain(FindColumn(columns, cell.code).value.valueType, cell.value)
  }

  predicate CellsFit(columns: seq<Column>, cells: seq<Cell>) {
    forall i :: 0 <= i < |cells| ==> CellFits(columns, cells[i])
  }

  predicate ConditionFits(columns: seq<Column>, c: Condition) { CellsFit(columns, c.cells) }

  predicate SnapshotFits(s: Snapshot) {
    forall i :: 0 <= i < |s.conditions| ==> ConditionFits(s.columns, s.conditions[i])
  }

  lemma {:induction false} ValueReadBack(t: V.ValueType, value: string)
    requires StoredValue(t, value)
    ensures CanonicalCellValue(t, value) == if FitsAgain(t, value) then Ok(value) else Err(InvalidSnapshot)
  {
    hide Decimals.Normalize, Decimals.Canonical, Decimals.DigitCount;
    if t.Number? { Decimals.RenormalizeCanonical(value); }
  }

  lemma {:induction false} CellsFitNext(columns: seq<Column>, cells: seq<Cell>)
    requires |cells| > 0
    ensures CellsFit(columns, cells) <==>
      CellsFit(columns, cells[..|cells| - 1]) && CellFits(columns, cells[|cells| - 1])
  {
    hide CellFits;
    var n := |cells| - 1;
    if CellsFit(columns, cells[..n]) && CellFits(columns, cells[n]) {
      forall i | 0 <= i < |cells| ensures CellFits(columns, cells[i]) { if i < n { assert cells[i] == cells[..n][i]; } }
    }
    if CellsFit(columns, cells) {
      forall i | 0 <= i < n ensures CellFits(columns, cells[..n][i]) { assert cells[i] == cells[..n][i]; }
    }
  }

  lemma {:induction false} CellsReadBack(cells: seq<Cell>, columns: seq<Column>)
    requires forall i :: 0 <= i < |cells| ==> StoredCell(columns, cells[i])
    ensures ParseCells(CellsOut(cells), columns) == if CellsFit(columns, cells) then Ok(cells) else Err(InvalidSnapshot)
  {
    hide FindColumn, CanonicalCellValue, FitsAgain, StoredValue, CellsFit;
    var n := |cells| - 1;
    if n >= 0 {
      CellsReadBack(cells[..n], columns);
      assert CellsOut(cells)[..n] == CellsOut(cells[..n]);
      assert StoredCell(columns, cells[n]);
      ValueReadBack(FindColumn(columns, cells[n].code).value.valueType, cells[n].value);
      assert cells == cells[..n] + [cells[n]];
      CellsFitNext(columns, cells);
    } else {
      NoCellsFit(columns);
    }
  }

  lemma {:induction false} NoCellsFit(columns: seq<Column>)
    ensures CellsFit(columns, [])
  {
  }

  lemma {:induction false} SourceGets(s: Source)
    ensures var f := SourceOut(s);
      && ExactKeys(f, ["layer_id", "layer_key", "project_id", "sheet_layer_id", "step_seq"])
      && Get(f, "layer_id") == Some(Str(s.layerId)) && Get(f, "layer_key") == Some(Str(s.layerKey))
      && Get(f, "project_id") == Some(Int(s.projectId))
      && Get(f, "sheet_layer_id") == Some(Int(s.sheetLayerId)) && Get(f, "step_seq") == Some(Str(s.stepSeq))
      && SortedKeys(f)
  {
    hide Get, TextLess, SortedKeys;
    FirstCharLess("layer_id", "layer_key", 6);
    FirstCharLess("layer_key", "project_id", 0);
    FirstCharLess("project_id", "sheet_layer_id", 0);
    FirstCharLess("sheet_layer_id", "step_seq", 1);
    var f := SourceOut(s);
    AdjacentSorted(f);
    GetAt(f, 0);
    GetAt(f, 1);
    GetAt(f, 2);
    GetAt(f, 3);
    GetAt(f, 4);
  }

  lemma {:induction false} SourceReadBack(s: Source)
    requires ValidSource(s)
    ensures ParseSource(Some(Obj(SourceOut(s)))) == Ok(s)
  {
    SourceGets(s);
    hide SourceOut, ExactKeys, Get, SortedKeys;
  }

  lemma {:induction false} ColumnGets(c: Column)
    ensures var f := ColumnOut(c);
      && ExactKeys(f, ["active_at_capture", "category_code", "display_name", "parameter_code", "sort_order",
        "value_type"])
      && Get(f, "active_at_capture") == Some(Bool(c.activeAtCapture))
      && Get(f, "category_code") == Some(OptionalStr(c.categoryCode))
      && Get(f, "display_name") == Some(Str(c.displayName)) && Get(f, "parameter_code") == Some(Str(c.code))
      && Get(f, "sort_order") == Some(Int(c.sortOrder)) && Get(f, "value_type") == Some(Str(TypeName(c.valueType)))
      && SortedKeys(f)
  {
    hide Get, TextLess, SortedKeys, OptionalStr, TypeName;
    FirstCharLess("active_at_capture", "category_code", 0);
    FirstCharLess("category_code", "display_name", 0);
    FirstCharLess("display_name", "parameter_code", 0);
    FirstCharLess("parameter_code", "sort_order", 0);
    FirstCharLess("sort_order", "value_type", 0);
    var f := ColumnOut(c);
    AdjacentSorted(f);
    GetAt(f, 0);
    GetAt(f, 1);
    GetAt(f, 2);
    GetAt(f, 3);
    GetAt(f, 4);
    GetAt(f, 5);
  }

  lemma {:induction false} TypeReadBack(t: V.ValueType)
    ensures NeedType(Some(Str(TypeName(t)))) == Ok(t)
  {
    assert "text" != "number" && "choice" != "number" && "choice" != "text";
  }

  lemma {:induction false} ColumnReadBack(c: Column)
    requires ValidColumn(c)
    ensures ParseColumn(Obj(ColumnOut(c))) == Ok(c)
  {
    ColumnGets(c);
    TypeReadBack(c.valueType);
    hide ColumnOut, ExactKeys, Get, SortedKeys, NeedType, TypeName;
  }

  lemma {:induction false} ColumnListReadBack(cs: seq<Column>)
    requires forall i :: 0 <= i < |cs| ==> ValidColumn(cs[i])
    ensures ParseColumnList(ColumnsOut(cs)) == Ok(cs)
  {
    hide ParseColumn, ColumnOut, ValidColumn;
    var n := |cs| - 1;
    if n >= 0 {
      ColumnListReadBack(cs[..n]);
      ColumnReadBack(cs[n]);
      assert ColumnsOut(cs)[..n] == ColumnsOut(cs[..n]);
      assert cs == cs[..n] + [cs[n]];
    }
  }

  lemma {:induction false} ConditionGets(c: Condition)
    ensures var f := ConditionOut(c);
      && ExactKeys(f, ["cells", "condition_index", "is_por", "label", "source_condition_id"])
      && Get(f, "cells") == Some(Obj(CellsOut(c.cells))) && Get(f, "condition_index") == Some(Int(c.conditionIndex))
      && Get(f, "is_por") == Some(Bool(c.isPor)) && Get(f, "label") == Some(Str(c.labelText))
      && Get(f, "source_condition_id") == Some(Int(c.sourceId))
      && SortedKeys(f)
  {
    hide Get, TextLess, SortedKeys, CellsOut;
    FirstCharLess("cells", "condition_index", 1);
    FirstCharLess("condition_index", "is_por", 0);
    FirstCharLess("is_por", "label", 0);
    FirstCharLess("label", "source_condition_id", 0);
    var f := ConditionOut(c);
    AdjacentSorted(f);
    GetAt(f, 0);
    GetAt(f, 1);
    GetAt(f, 2);
    GetAt(f, 3);
    GetAt(f, 4);
  }

  lemma {:induction false} HeaderReadBack(c: Condition)
    requires ValidHeader(c)
    ensures ParseHeader(Some(Int(c.sourceId)), Some(Str(c.labelText)), Some(Int(c.conditionIndex)), Some(Bool(c.isPor)),
      c.cells) == Ok(c)
  {
  }

  lemma {:induction false} ConditionReadBack(c: Condition, columns: seq<Column>)
    requires StoredCondition(columns, c)
    ensures ParseCondition(Obj(ConditionOut(c)), columns) == if ConditionFits(columns, c) then Ok(c)
      else Err(InvalidSnapshot)
  {
    hide ConditionOut, ExactKeys, Get, SortedKeys, ParseCells, ParseHeader, CellsFit, CellsOut, StoredCell, ValidHeader,
         StrictlySorted;
    ConditionGets(c);
    CellsReadBack(c.cells, columns);
    HeaderReadBack(c);
    hide StoredCondition;
  }

  lemma {:induction false} ConditionListReadBack(cs: seq<Condition>, columns: seq<Column>)
    requires forall i :: 0 <= i < |cs| ==> StoredCondition(columns, cs[i])
    ensures ParseConditionList(ConditionsOut(cs), columns) ==
      if forall i :: 0 <= i < |cs| ==> ConditionFits(columns, cs[i]) then Ok(cs) else Err(InvalidSnapshot)
  {
    hide ParseCondition, ConditionOut, StoredCondition, ConditionFits;
    var n := |cs| - 1;
    if n >= 0 {
      ConditionListReadBack(cs[..n], columns);
      assert ConditionsOut(cs)[..n] == ConditionsOut(cs[..n]);
      ConditionReadBack(cs[n], columns);
      assert cs == cs[..n] + [cs[n]];
      if forall i :: 0 <= i < n ==> ConditionFits(columns, cs[..n][i]) {
        assert (forall i :: 0 <= i < |cs| ==> ConditionFits(columns, cs[i])) <==> ConditionFits(columns, cs[n]);
      } else {
        var i :| 0 <= i < n && !ConditionFits(columns, cs[..n][i]);
        assert !ConditionFits(columns, cs[i]);
      }
    }
  }

  lemma {:induction false} DocumentSorted(s: Snapshot)
    ensures SortedKeys(Serialize(s).fields)
  {
    hide TextLess, FormatInstant, ColumnsOut, ConditionsOut, SortBy, SourceOut;
    FirstCharLess("capture_batch_id", "captured_at", 7);
    FirstCharLess("captured_at", "columns", 1);
    FirstCharLess("columns", "conditions", 2);
    FirstCharLess("conditions", "schema_version", 0);
    FirstCharLess("schema_version", "source", 1);
    AdjacentSorted(Serialize(s).fields);
  }

  lemma {:induction false} DocumentGets(s: Snapshot)
    ensures var f := Serialize(s).fields;
      && ExactKeys(f, ["capture_batch_id", "captured_at", "columns", "conditions", "schema_version", "source"])
      && Get(f, "capture_batch_id") == Some(Str(s.batchId))
      && Get(f, "captured_at") == Some(Str(FormatInstant(s.capturedAt)))
      && Get(f, "columns") == Some(Arr(ColumnsOut(SortBy(s.columns, ColumnKey))))
      && Get(f, "conditions") == Some(Arr(ConditionsOut(SortBy(s.conditions, ConditionKey))))
      && Get(f, "schema_version") == Some(Int(1)) && Get(f, "source") == Some(Obj(SourceOut(s.source)))
      && SortedKeys(f)
  {
    hide Get, TextLess, SortedKeys, FormatInstant, ColumnsOut, ConditionsOut, SortBy, SourceOut;
    DocumentSorted(s);
    var f := Serialize(s).fields;
    GetAt(f, 0);
    GetAt(f, 1);
    GetAt(f, 2);
    GetAt(f, 3);
    GetAt(f, 4);
    GetAt(f, 5);
  }

  lemma {:induction false} ColumnsReadBack(columns: seq<Column>)
    requires DistinctColumns(columns) && forall i :: 0 <= i < |columns| ==> ValidColumn(columns[i])
    ensures ParseColumns(Some(Arr(ColumnsOut(SortBy(columns, ColumnKey))))) == Ok(SortBy(columns, ColumnKey))
  {
    hide SortBy, ValidColumn, KeyLess, StrictlySorted, ParseColumnList, ColumnsOut, DistinctColumns;
    var sorted := SortBy(columns, ColumnKey);
    SortedStillDistinct(columns);
    StrictIsSorted(sorted, ColumnKey);
    SortFixed(sorted, ColumnKey);
    forall i | 0 <= i < |sorted| ensures ValidColumn(sorted[i]) {
      MemberOfPermutation(columns, sorted, i);
      var k := IndexOf(columns, sorted[i]);
    }
    ColumnListReadBack(sorted);
  }

  lemma {:induction false} StoredUnderPermutation(columns: seq<Column>, sorted: seq<Column>, c: Condition)
    requires multiset(sorted) == multiset(columns) && DistinctColumns(columns) && StoredCondition(columns, c)
    ensures StoredCondition(sorted, c)
    ensures ConditionFits(sorted, c) <==> ConditionFits(columns, c)
  {
    hide FindColumn, StoredValue, FitsAgain, DistinctColumns, SortedCells;
    forall i | 0 <= i < |c.cells|
      ensures StoredCell(sorted, c.cells[i]) && (CellFits(sorted, c.cells[i]) <==> CellFits(columns, c.cells[i]))
    {
      assert StoredCell(columns, c.cells[i]);
      FindColumnShuffled(sorted, columns, c.cells[i].code);
    }
  }

  lemma {:induction false} ConditionsReadBack(s: Snapshot)
    requires WellFormed(s)
    ensures ParseConditions(Some(Arr(ConditionsOut(SortBy(s.conditions, ConditionKey)))),
      SortBy(s.columns, ColumnKey)) ==
      if SnapshotFits(s) then Ok(SortBy(s.conditions, ConditionKey)) else Err(InvalidSnapshot)
  {
    hide SortBy, KeyLess, StrictlySorted, ParseConditionList, ConditionsOut, DistinctConditions, DistinctColumns,
         StoredCondition, ConditionFits, ValidColumn, ValidInstant, ValidSource, IsHex32;
    var columns, sorted := SortBy(s.columns, ColumnKey), SortBy(s.conditions, ConditionKey);
    SortedStillDistinct(s.columns);
    SortedConditionsDistinct(s.conditions);
    StrictIsSorted(sorted, ConditionKey);
    SortFixed(sorted, ConditionKey);
    forall i | 0 <= i < |s.conditions|
      ensures StoredCondition(columns, s.conditions[i])
      ensures (ConditionFits(columns, s.conditions[i]) <==> ConditionFits(s.columns, s.conditions[i]))
    {
      StoredUnderPermutation(s.columns, columns, s.conditions[i]);
    }
    EachInPermutation(s.conditions, sorted, columns);
    ConditionListReadBack(sorted, columns);
  }

  lemma {:induction false} EachInPermutation(cs: seq<Condition>, sorted: seq<Condition>, columns: seq<Column>)
    requires multiset(sorted) == multiset(cs)
    ensures (forall i :: 0 <= i < |cs| ==> StoredCondition(columns, cs[i])) ==> forall i :: 0 <= i < |sorted| ==>
      StoredCondition(columns, sorted[i])
    ensures (forall i :: 0 <= i < |cs| ==> ConditionFits(columns, cs[i])) <==>
      (forall i :: 0 <= i < |sorted| ==> ConditionFits(columns, sorted[i]))
  {
    hide StoredCondition, ConditionFits;
    forall i | 0 <= i < |sorted| ensures sorted[i] in cs { MemberOfPermutation(cs, sorted, i); }
    forall i | 0 <= i < |cs| ensures cs[i] in sorted { MemberOfPermutation(sorted, cs, i); }
  }

  /**
   * Parsing a serialised snapshot gives it back in canonical order exactly when every number is
   * within the digit limit; otherwise the document is refused.
   */
  lemma {:induction false} ParseSerialized(s: Snapshot)
    requires WellFormed(s)
    ensures Parse(Serialize(s)) == if SnapshotFits(s) then Ok(Ordered(s)) else Err(InvalidSnapshot)
  {
    DocumentGets(s);
    SourceReadBack(s.source);
    ColumnsReadBack(s.columns);
    SerializeIsObject(s);
    AssembledBack(s);
    hide WellFormed, Serialize, Get, ExactKeys, SortedKeys, ParseSource, ParseColumns, AssembleSnapshot, FormatInstant,
         ColumnsOut, ConditionsOut, SourceOut, SortBy, SnapshotFits, StoredCondition, ValidColumn, DistinctColumns,
         DistinctConditions, ValidInstant, ValidSource, IsHex32;
  }

  lemma {:induction false} SerializeIsObject(s: Snapshot)
    ensures Serialize(s) == Obj(Serialize(s).fields)
  {
    hide FormatInstant, ColumnsOut, ConditionsOut, SourceOut, SortBy;
  }

  lemma {:induction false} AssembledBack(s: Snapshot)
    requires WellFormed(s)
    ensures AssembleSnapshot(Serialize(s).fields, s.source, SortBy(s.columns, ColumnKey)) == if SnapshotFits(s)
      then Ok(Ordered(s)) else Err(InvalidSnapshot)
  {
    DocumentGets(s);
    ConditionsReadBack(s);
    FinishedBack(s);
    hide WellFormed, FinishSnapshot, Serialize, Get, ExactKeys, SortedKeys, ParseConditions, FormatInstant, ColumnsOut,
         ConditionsOut, SourceOut, SortBy, SnapshotFits;
  }

  lemma {:induction false} FinishedBack(s: Snapshot)
    requires IsHex32(s.batchId) && ValidInstant(s.capturedAt)
    ensures FinishSnapshot(Some(Int(1)), Some(Str(s.batchId)), Some(Str(FormatInstant(s.capturedAt))), s.source,
      SortBy(s.columns, ColumnKey), SortBy(s.conditions, ConditionKey)) == Ok(Ordered(s))
  {
    InstantRoundTrip(s.capturedAt);
    hide IsHex32, ValidInstant, ParseInstant, FormatInstant, SortBy, ColumnKey, ConditionKey;
    assert NeedBatchId(Some(Str(s.batchId))) == Ok(s.batchId);
    assert NeedInstant(Some(Str(FormatInstant(s.capturedAt)))) == Ok(s.capturedAt);
    hide NeedBatchId, NeedInstant;
  }

  /** Serialising what was parsed and parsing again is stable: the same snapshot and the same document. */
  lemma {:induction false} SerializeParsed(raw: Json)
    requires Canonical(raw) && Parse(raw).Ok?
    ensures var s := Parse(raw).value;
      && WellFormed(s) && Ordered(s) == s
      && (SnapshotFits(s) <==> Parse(Serialize(s)) == Ok(s))
      && (Parse(Serialize(s)).Ok? ==> Serialize(Parse(Serialize(s)).value) == Serialize(s))
  {
    hide Parse, Serialize, WellFormed, InCanonicalOrder, SnapshotFits, Ordered;
    ParsedWellFormed(raw);
    OrderedFixed(Parse(raw).value);
    ParseSerialized(Parse(raw).value);
  }

  // ---------------------------------------------------------------- the digit limit in terms of the input

  /** The number literal that loses its way back: it fills the limit behind a leading dot. */
  predicate LiteralReturns(t: V.ValueType, raw: string) {
    t.Number? ==> !Decimals.FillsTheLimitBehindADot(Decimals.Split(Decimals.Strip(raw)))
  }

  /** A constructed cell fits again exactly when its literal does not fill the limit behind a dot. */
  lemma {:induction false} FitsFromLiteral(t: V.ValueType, raw: string)
    requires CanonicalCellValue(t, raw).Ok?
    ensures FitsAgain(t, CanonicalCellValue(t, raw).value) <==> LiteralReturns(t, raw)
  {
    hide Decimals.Normalize, Decimals.Canonical, Decimals.DigitCount, Decimals.FillsTheLimitBehindADot;
    if t.Number? {
      Decimals.NormalizePreservesValue(raw);
      Decimals.NormalizeIdempotent(raw);
      Decimals.RenormalizeCanonical(Decimals.Normalize(raw).value);
    }
  }

  predicate CellReturns(columns: seq<Column>, cell: Cell) {
    FindColumn(columns, cell.code).Some? ==> LiteralReturns(FindColumn(columns, cell.code).value.valueType, cell.value)
  }

  lemma {:induction false} CanonicalCellsFit(columns: seq<Column>, cells: seq<Cell>)
    requires CanonicalCells(columns, cells).Ok?
    ensures var r := CanonicalCells(columns, cells).value;
      |r| == |cells| && forall i :: 0 <= i < |r| ==> (CellFits(columns, r[i]) <==> CellReturns(columns, cells[i]))
  {
    hide FindColumn, FitsAgain, LiteralReturns, CanonicalCellValue;
    if |cells| > 0 {
      CanonicalCellsFit(columns, cells[1..]);
      FitsFromLiteral(FindColumn(columns, cells[0].code).value.valueType, cells[0].value);
    }
  }

  lemma {:induction false} MadeConditionFits(columns: seq<Column>, c: Condition)
    requires MakeCondition(columns, c).Ok?
    ensures ConditionFits(columns, MakeCondition(columns, c).value) <==> forall i :: 0 <= i < |c.cells| ==>
      CellReturns(columns, c.cells[i])
  {
    hide CanonicalCells, SortBy, CellFits, CellReturns, KeyLess;
    var sorted := SortBy(c.cells, CellKey);
    SortProps(c.cells, CellKey);
    CanonicalCellsFit(columns, sorted);
    forall i | 0 <= i < |sorted| ensures sorted[i] in c.cells { MemberOfPermutation(c.cells, sorted, i); }
    forall i | 0 <= i < |c.cells| ensures c.cells[i] in sorted { MemberOfPermutation(sorted, c.cells, i); }
  }

  /**
   * A constructed snapshot survives serialising and parsing exactly when no number literal fills
   * the limit behind a leading dot.
   */
  lemma {:induction false} ConstructedRoundTrip(batchId: string, capturedAt: Instant, source: Source,
      columns: seq<Column>, conditions: seq<Condition>)
    requires MakeSnapshot(batchId, capturedAt, source, columns, conditions).Ok?
    ensures WellFormed(MakeSnapshot(batchId, capturedAt, source, columns, conditions).value)
    ensures var s := MakeSnapshot(batchId, capturedAt, source, columns, conditions).value;
      Parse(Serialize(s)) == Ok(Ordered(s)) <==>
      forall i, j :: 0 <= i < |conditions| && 0 <= j < |conditions[i].cells| ==>
        CellReturns(columns, conditions[i].cells[j])
  {
    hide Parse, Serialize, WellFormed, Ordered, MakeConditions, MakeCondition, ConditionFits, CellReturns;
    MadeWellFormed(batchId, capturedAt, source, columns, conditions);
    var s := MakeSnapshot(batchId, capturedAt, source, columns, conditions).value;
    ParseSerialized(s);
    MakeConditionsStored(columns, conditions);
    forall i | 0 <= i < |conditions|
      ensures ConditionFits(columns, s.conditions[i]) <==> forall j :: 0 <= j < |conditions[i].cells| ==>
        CellReturns(columns, conditions[i].cells[j])
    {
      MadeConditionFits(columns, conditions[i]);
    }
  }

  // ---------------------------------------------------------------- a snapshot that is not read back

  const NUMBER_COLUMN := Column("n", V.Number, "Number", None, 0, true)

  function TinyCondition(): Condition { Condition(1, "Row", 0, true, [Cell("n", Decimals.TinyNumber())]) }

  lemma {:induction false} TinyConditionMade()
    ensures MakeCondition([NUMBER_COLUMN], TinyCondition()).Ok?
  {
    hide Decimals.Normalize, Decimals.TinyNumber, Decimals.FillsTheLimitBehindADot;
    Decimals.NormalizeTwiceFails();
    var cells := TinyCondition().cells;
    assert cells[1..] == [] && SortBy(cells, CellKey) == cells;
    assert FindColumn([NUMBER_COLUMN], "n") == Some(NUMBER_COLUMN);
    assert CanonicalCells([NUMBER_COLUMN], cells[1..]).Ok?;
  }

  /** The constructor accepts this snapshot, but its serialised form is refused. */
  lemma {:induction false} ConstructedCanBeRefused(batchId: string, capturedAt: Instant, source: Source)
    requires IsHex32(batchId) && ValidInstant(capturedAt) && ValidSource(source)
    ensures var made := MakeSnapshot(batchId, capturedAt, source, [NUMBER_COLUMN], [TinyCondition()]);
      made.Ok? && Parse(Serialize(made.value)) == Err(InvalidSnapshot)
  {
    hide Parse, Serialize, MakeCondition, WellFormed, IsHex32, ValidInstant, ValidSource, SnapshotFits,
         Decimals.TinyNumber, Decimals.FillsTheLimitBehindADot, Decimals.Split, Decimals.Strip, Decimals.Normalize;
    TinyConditionMade();
    assert [TinyCondition()][1..] == [];
    assert MakeConditions([NUMBER_COLUMN], []).Ok?;
    var made := MakeSnapshot(batchId, capturedAt, source, [NUMBER_COLUMN], [TinyCondition()]);
    Decimals.NormalizeTwiceFails();
    assert FindColumn([NUMBER_COLUMN], "n") == Some(NUMBER_COLUMN);
    assert !CellReturns([NUMBER_COLUMN], TinyCondition().cells[0]);
    ConstructedRoundTrip(batchId, capturedAt, source, [NUMBER_COLUMN], [TinyCondition()]);
    ParseSerialized(made.value);
  }
}
