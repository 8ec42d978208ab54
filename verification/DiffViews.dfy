/**
 * The views of a comparison (backend/app/features/backbone_diff/provider.py): root counts and
 * previews, condition items, cell items and their pages.
 */
module DiffViews {
  import opened Results
  import opened Ordering
  import opened Json
  import opened Bytes
  import opened Paging
  import opened BaselineSnapshot
  import opened BackboneDiff
  import opened DiffEngine
  import T = Tokens

  const MAX_PUBLIC_CELL_VALUE_LENGTH := 4096
  const MAX_CELL_RESPONSE_BYTES := 256 * 1024

  /** `ResponseInvalid`: a response model refuses a token of more than 4096 characters. */
  datatype ViewError = MissingDescriptor | ValueTooLong | ResponseTooLarge | InvalidRowRef | InvalidCursor
    | ResponseInvalid

  /** A compared layer with the dictionaries the views look codes up in and the project's basis hash. */
  datatype Bundle = Bundle(projectId: int, basisHash: string, input: LayerInput, result: LayerResult,
      columns: map<string, Column>, selected: seq<CurrentParameter>)

  // ---------------------------------------------------------------- filters

  function ClassName(c: Classification): string {
    match c
    case AddedCell => "added"
    case ChangedCell => "changed"
    case ClearedCell => "cleared"
    case RemovedCell => "removed"
    case UnchangedCell => "unchanged"
  }

  function Category(b: Bundle, code: string, baseline: bool): Result<Option<string>, ViewError> {
    if baseline then if code in b.columns then Ok(b.columns[code].categoryCode) else Err(MissingDescriptor)
    else
      var parameter := FindParameter(b.selected, code);
      if parameter.Some? then Ok(parameter.value.categoryCode) else Err(MissingDescriptor)
  }

  /** The filters that need no lookup: classification and parameter code. */
  predicate PassesPlainFilters(c: CellChange, f: T.Filters) {
    && (c.classification == UnchangedCell ==> f.includeUnchanged)
    && (f.classification != [] ==> ClassName(c.classification) in f.classification)
    && (f.parameterCode.Some? ==> c.code == f.parameterCode.value)
  }

  function Matches(b: Bundle, c: CellChange, f: T.Filters, baseline: bool): Result<bool, ViewError> {
    if !PassesPlainFilters(c, f) then Ok(false)
    else if f.categoryCode.None? then Ok(true)
    else
      var category :- Category(b, c.code, baseline);
      Ok(category == f.categoryCode)
  }

  /** _candidate_matches_filters: the root view decides the authority by row status and classification. */
  function RootMatches(b: Bundle, row: Row, c: CellChange, f: T.Filters): Result<bool, ViewError> {
    Matches(b, c, f, row.status == Removed || c.classification == RemovedCell)
  }

  /** _cell_change_matches_filters: the drill-down decides it by classification and reason. */
  function DrillMatches(b: Bundle, c: CellChange, f: T.Filters): Result<bool, ViewError> {
    Matches(b, c, f, c.classification == RemovedCell || c.reason == ColumnRemoved || c.reason == RowRemoved)
  }

  predicate MetadataMatches(f: T.Filters) {
    f.categoryCode.None? && f.parameterCode.None? && (f.classification == [] || "changed" in f.classification)
  }

  // ---------------------------------------------------------------- references

  function RowRefFor(projectId: int, layerKey: string, row: Row): T.RowRef {
    match row.status
    case Matched => T.RowRef(projectId, layerKey, "matched", row.baselineSourceId, row.currentId)
    case Added => T.RowRef(projectId, layerKey, "added", None, row.currentId)
    case Removed => T.RowRef(projectId, layerKey, "removed", row.baselineSourceId, None)
  }

  function CellScopeFor(b: Bundle, row: Row, f: T.Filters): T.Scope {
    T.CellScope(b.projectId, b.input.layerKey, b.basisHash, RowRefFor(b.projectId, b.input.layerKey, row), f)
  }

  function BranchScopeFor(b: Bundle, f: T.Filters): T.Scope {
    T.BranchScope(b.projectId, b.input.layerKey, b.basisHash, f)
  }

  /** What a response model accepts as a token. */
  predicate TokenShort(token: string) { |token| <= T.MAX_TOKEN_LENGTH }

  predicate TokensShort(rowRef: T.RowRef, cellScope: T.Scope) {
    TokenShort(T.EncodeRowRef(rowRef)) && TokenShort(T.EncodeScope(cellScope))
  }

  /** The tokens that a condition item or a preview of the row carries are short enough. */
  predicate RowTokensShort(b: Bundle, row: Row, f: T.Filters) {
    TokensShort(RowRefFor(b.projectId, b.input.layerKey, row), CellScopeFor(b, row, f))
  }

  function AtomJson(a: Atom): Json { match a case Num(n) => Int(n) case Txt(s) => Str(s) }

  function KeyJson(key: Key): (r: seq<Json>)
    ensures |r| == |key| && forall i :: 0 <= i < |key| ==> r[i] == AtomJson(key[i])
  {
    seq(|key|, i requires 0 <= i < |key| => AtomJson(key[i]))
  }

  function CursorFor(scope: T.Scope, key: Key): T.Cursor { T.Cursor(T.KindOf(scope), scope, KeyJson(key)) }

  /** The cursor's token is short enough to be handed out, and to be decoded. */
  predicate CursorShort(scope: T.Scope, key: Key) { TokenShort(T.EncodeCursor(CursorFor(scope, key))) }

  predicate NextShort(scope: T.Scope, next: Option<Key>) { next.Some? ==> CursorShort(scope, next.value) }

  /** _find_row: the first row whose reference is the given one. */
  method FindRow(rows: seq<Row>, rowRef: T.RowRef) returns (r: Result<Row, ViewError>)
    ensures r.Ok? ==> r.value in rows && RowRefFor(rowRef.projectId, rowRef.layerKey, r.value) == rowRef
    ensures r.Err? ==> r.error == InvalidRowRef && forall i :: 0 <= i < |rows| ==>
      RowRefFor(rowRef.projectId, rowRef.layerKey, rows[i]) != rowRef
  {
    var i := 0;
    while i < |rows|
      invariant i <= |rows|
      invariant forall k :: 0 <= k < i ==> RowRefFor(rowRef.projectId, rowRef.layerKey, rows[k]) != rowRef
    {
      if RowRefFor(rowRef.projectId, rowRef.layerKey, rows[i]) == rowRef { return Ok(rows[i]); }
      i := i + 1;
    }
    return Err(InvalidRowRef);
  }

  // ---------------------------------------------------------------- cell items

  datatype Metadata = Metadata(code: string, valueType: string, displayName: string, categoryCode: Option<string>,
      sortOrder: int, active: bool)

  datatype CellItem = CellItem(
    classification: Classification, reason: Reason, code: string, sortOrder: int, baselineValue: Option<string>,
    currentValue: Option<string>,
    baselineMetadata: Option<Metadata>, currentMetadata: Option<Metadata>, deleted: bool)

  predicate PublicValue(v: Option<string>) { v.Some? ==> |v.value| <= MAX_PUBLIC_CELL_VALUE_LENGTH }

  predicate PublicCell(c: CellChange) { PublicValue(c.baselineValue) && PublicValue(c.currentValue) }

  function BaselineMetadata(b: Bundle, code: string, status: RowStatus): Option<Metadata> {
    if status == Added || code !in b.columns then None
    else
      var c := b.columns[code];
      Some(Metadata(c.code, TypeName(c.valueType), c.displayName, c.categoryCode, c.sortOrder, c.activeAtCapture))
  }

  function CurrentMetadata(b: Bundle, code: string, status: RowStatus): Option<Metadata> {
    var found := FindParameter(b.selected, code);
    if status == Removed || found.None? then None
    else
      var p := found.value;
      Some(Metadata(p.code, TypeName(p.valueType), p.displayName, p.categoryCode, p.sortOrder, p.active))
  }

  function ItemOf(b: Bundle, status: RowStatus, c: CellChange): Result<CellItem, ViewError> {
    if !PublicCell(c) then Err(ValueTooLong)
    else Ok(CellItem(c.classification, c.reason, c.code, c.sortOrder, c.baselineValue, c.currentValue,
                     BaselineMetadata(b, c.code, status), CurrentMetadata(b, c.code, status),
                     c.classification == RemovedCell))
  }

  function ItemKey(x: CellItem): Key { [Num(x.sortOrder), Txt(x.code)] }

  /** The item of one change, or none when it is filtered out. */
  function VisibleItem(b: Bundle, status: RowStatus, c: CellChange, f: T.Filters): Result<Option<CellItem>, ViewError> {
    var visible :- DrillMatches(b, c, f);
    if !visible then Ok(None)
    else
      var item :- ItemOf(b, status, c);
      Ok(Some(item))
  }

  function AppendItem(listed: seq<CellItem>, x: Option<CellItem>): seq<CellItem> {
    if x.Some? then listed + [x.value] else listed
  }

  function CellItems(b: Bundle, status: RowStatus, cells: seq<CellChange>,
      f: T.Filters): Result<seq<CellItem>, ViewError> {
    if |cells| == 0 then Ok([])
    else
      var before :- CellItems(b, status, cells[..|cells| - 1], f);
      var last :- VisibleItem(b, status, cells[|cells| - 1], f);
      Ok(AppendItem(before, last))
  }

  lemma {:induction false} CellItemsNext(b: Bundle, status: RowStatus, cells: seq<CellChange>, f: T.Filters, i: nat)
    requires i < |cells|
    ensures CellItems(b, status, cells[..i], f).Err? ==>
      CellItems(b, status, cells[..i + 1], f) == CellItems(b, status, cells[..i], f)
    ensures CellItems(b, status, cells[..i], f).Ok? && VisibleItem(b, status, cells[i], f).Err? ==>
      CellItems(b, status, cells[..i + 1], f) == Err(VisibleItem(b, status, cells[i], f).error)
    ensures CellItems(b, status, cells[..i], f).Ok? && VisibleItem(b, status, cells[i], f).Ok? ==>
      CellItems(b, status, cells[..i + 1], f) ==
        Ok(AppendItem(CellItems(b, status, cells[..i], f).value, VisibleItem(b, status, cells[i], f).value))
  {
    hide VisibleItem, AppendItem;
    assert cells[..i + 1][..i] == cells[..i];
  }

  lemma {:induction false} CellItemsFail(b: Bundle, status: RowStatus, cells: seq<CellChange>, f: T.Filters, i: nat)
    requires i <= |cells| && CellItems(b, status, cells[..i], f).Err?
    ensures CellItems(b, status, cells, f) == CellItems(b, status, cells[..i], f)
    decreases |cells| - i
  {
    hide VisibleItem, AppendItem;
    if i < |cells| {
      CellItemsNext(b, status, cells, f, i);
      CellItemsFail(b, status, cells, f, i + 1);
    } else {
      assert cells[..i] == cells;
    }
  }

  /** _cell_items */
  method ListCellItems(b: Bundle, row: Row, f: T.Filters) returns (r: Result<seq<CellItem>, ViewError>)
    ensures r == CellItems(b, row.status, row.cells, f)
  {
    hide DrillMatches, ItemOf, CellItems;
    var items: seq<CellItem> := [];
    NoCellItems(b, row.status, row.cells, f);
    var i := 0;
    while i < |row.cells|
      invariant i <= |row.cells| && CellItems(b, row.status, row.cells[..i], f) == Ok(items)
    {
      CellItemsNext(b, row.status, row.cells, f, i);
      var visible := DrillMatches(b, row.cells[i], f);
      if visible.Err? {
        CellItemsFail(b, row.status, row.cells, f, i + 1);
        return Err(visible.error);
      }
      if visible.value {
        var item := ItemOf(b, row.status, row.cells[i]);
        if item.Err? {
          CellItemsFail(b, row.status, row.cells, f, i + 1);
          return Err(item.error);
        }
        items := items + [item.value];
      }
      i := i + 1;
    }
    assert row.cells[..i] == row.cells;
    r := Ok(items);
  }

  lemma {:induction false} NoCellItems(b: Bundle, status: RowStatus, cells: seq<CellChange>, f: T.Filters)
    ensures CellItems(b, status, cells[..0], f) == Ok([])
  {
  }

  // ---------------------------------------------------------------- condition items

  datatype ConditionItem = ConditionItem(
    rowRef: T.RowRef, cellScope: T.Scope, status: RowStatus, effectiveIndex: int, identity: int,
    labelChanged: bool, indexChanged: bool, porChanged: bool, filteredCellCount: nat, fullCellCount: nat, deleted: bool)

  function ConditionKeyOf(x: ConditionItem): Key { [Num(x.effectiveIndex), Num(StatusRank(x.status)), Num(x.identity)] }

  predicate HasChange(row: Row, pick: MetadataChange -> bool) {
    exists i :: 0 <= i < |row.metadataChanges| && pick(row.metadataChanges[i])
  }

  function ConditionItemOf(b: Bundle, row: Row, f: T.Filters, filteredCells: nat): ConditionItem {
    ConditionItem(RowRefFor(b.projectId, b.input.layerKey, row), CellScopeFor(b, row, f), row.status,
      row.effectiveIndex, row.identity,
                  HasChange(row, (m: MetadataChange) => m.LabelChanged?),
                  HasChange(row, (m: MetadataChange) => m.IndexChanged?),
                  HasChange(row, (m: MetadataChange) => m.PorChanged?), filteredCells, |row.cells|,
                  row.status == Removed)
  }

  predicate MetadataVisible(row: Row, f: T.Filters) { row.metadataChanges != [] && MetadataMatches(f) }

  function BranchRows(b: Bundle, rows: seq<Row>, f: T.Filters): Result<seq<ConditionItem>, ViewError> {
    if |rows| == 0 then Ok([])
    else
      var before :- BranchRows(b, rows[..|rows| - 1], f);
      BranchRow(b, rows[|rows| - 1], f, before)
  }

  function BranchRow(b: Bundle, row: Row, f: T.Filters,
      listed: seq<ConditionItem>): Result<seq<ConditionItem>, ViewError> {
    var items :- CellItems(b, row.status, row.cells, f);
    AppendRow(b, row, f, listed, |items|)
  }

  /** A row is listed when a cell or its metadata is visible; its item's tokens must be short enough. */
  function AppendRow(b: Bundle, row: Row, f: T.Filters, listed: seq<ConditionItem>,
      cellCount: nat): Result<seq<ConditionItem>, ViewError> {
    if cellCount == 0 && !MetadataVisible(row, f) then Ok(listed)
    else if !RowTokensShort(b, row, f) then Err(ResponseInvalid)
    else Ok(listed + [ConditionItemOf(b, row, f, cellCount)])
  }

  lemma {:induction false} BranchRowsNext(b: Bundle, rows: seq<Row>, f: T.Filters, i: nat)
    requires i < |rows|
    ensures BranchRows(b, rows[..i + 1], f) ==
      match BranchRows(b, rows[..i], f) case Err(e) => Err(e) case Ok(listed) => BranchRow(b, rows[i], f, listed)
  {
    hide BranchRow;
    assert rows[..i + 1][..i] == rows[..i];
  }

  lemma {:induction false} BranchRowsFail(b: Bundle, rows: seq<Row>, f: T.Filters, i: nat)
    requires i <= |rows| && BranchRows(b, rows[..i], f).Err?
    ensures BranchRows(b, rows, f) == BranchRows(b, rows[..i], f)
    decreases |rows| - i
  {
    hide BranchRow;
    if i < |rows| {
      BranchRowsNext(b, rows, f, i);
      BranchRowsFail(b, rows, f, i + 1);
    } else {
      assert rows[..i] == rows;
    }
  }

  /** _branch_rows */
  method ListBranchRows(b: Bundle, f: T.Filters) returns (r: Result<seq<ConditionItem>, ViewError>)
    ensures r == BranchRows(b, b.result.rows, f)
  {
    hide CellItems, ConditionItemOf, MetadataVisible, BranchRows, ItemOf, DrillMatches, RowTokensShort;
    var rows := b.result.rows;
    var listed: seq<ConditionItem> := [];
    NoBranchRows(b, rows, f);
    var i := 0;
    while i < |rows|
      invariant i <= |rows| && BranchRows(b, rows[..i], f) == Ok(listed)
    {
      BranchRowsNext(b, rows, f, i);
      var items := ListCellItems(b, rows[i], f);
      if items.Err? {
        BranchRowsFail(b, rows, f, i + 1);
        return Err(items.error);
      }
      if |items.value| > 0 || MetadataVisible(rows[i], f) {
        if !RowTokensShort(b, rows[i], f) {
          BranchRowsFail(b, rows, f, i + 1);
          return Err(ResponseInvalid);
        }
        listed := listed + [ConditionItemOf(b, rows[i], f, |items.value|)];
      }
      i := i + 1;
    }
    assert rows[..i] == rows;
    r := Ok(listed);
  }

  lemma {:induction false} NoBranchRows(b: Bundle, rows: seq<Row>, f: T.Filters)
    ensures BranchRows(b, rows[..0], f) == Ok([])
  {
  }

  // ---------------------------------------------------------------- the root view

  datatype Preview =
    | MetadataPreview(rowRef: T.RowRef, cellScope: T.Scope, change: MetadataChange)
    | CellPreview(rowRef: T.RowRef, cellScope: T.Scope, cell: CellChange)

  function FieldName(m: MetadataChange): string {
    match m case LabelChanged(_, _) => "label" case IndexChanged(_, _) => "condition_index" case PorChanged(_,
      _) => "is_por"
  }

  function FieldKey(m: MetadataChange): Key { [Txt(FieldName(m))] }

  function MetadataPreviewOf(b: Bundle, row: Row, f: T.Filters, m: MetadataChange): Preview {
    MetadataPreview(RowRefFor(b.projectId, b.input.layerKey, row), CellScopeFor(b, row, f), m)
  }

  function CellPreviewOf(b: Bundle, row: Row, f: T.Filters, c: CellChange): Preview {
    CellPreview(RowRefFor(b.projectId, b.input.layerKey, row), CellScopeFor(b, row, f), c)
  }

  function MetadataPreviews(b: Bundle, row: Row, changes: seq<MetadataChange>, f: T.Filters): (r: seq<Preview>)
    ensures |r| == |changes| && forall i :: 0 <= i < |r| ==> r[i] == MetadataPreviewOf(b, row, f, changes[i])
  {
    seq(|changes|, i requires 0 <= i < |changes| => MetadataPreviewOf(b, row, f, changes[i]))
  }

  /** The visible metadata candidates, by field name. */
  function VisibleMetadata(b: Bundle, row: Row, f: T.Filters): seq<Preview> {
    if MetadataMatches(f) then MetadataPreviews(b, row, SortBy(row.metadataChanges, FieldKey), f) else []
  }

  /** Some preview of the row would be built, and its tokens are too long. */
  predicate Blocked(b: Bundle, row: Row, f: T.Filters, room: nat) { room > 0 && !RowTokensShort(b, row, f) }

  function CellPreviews(b: Bundle, row: Row, cells: seq<CellChange>, f: T.Filters,
      blocked: bool): Result<seq<Preview>, ViewError> {
    if |cells| == 0 then Ok([])
    else
      var before :- CellPreviews(b, row, cells[..|cells| - 1], f, blocked);
      CellPreviewNext(b, row, cells[|cells| - 1], f, blocked, before)
  }

  function CellPreviewNext(b: Bundle, row: Row, c: CellChange, f: T.Filters, blocked: bool,
      found: seq<Preview>): Result<seq<Preview>, ViewError> {
    var visible :- RootMatches(b, row, c, f);
    if !visible then Ok(found) else if blocked then Err(ResponseInvalid) else Ok(found + [CellPreviewOf(b, row, f, c)])
  }

  /** The visible candidates of a row: metadata by field name, then cells in row order. */
  function RowPreviews(b: Bundle, row: Row, f: T.Filters, blocked: bool): Result<seq<Preview>, ViewError> {
    var metadata := VisibleMetadata(b, row, f);
    if metadata != [] && blocked then Err(ResponseInvalid)
    else
      var cells :- CellPreviews(b, row, row.cells, f, blocked);
      Ok(metadata + cells)
  }

  function CellCount(previews: seq<Preview>): nat {
    if |previews| == 0 then 0
      else CellCount(previews[..|previews| - 1]) + (if previews[|previews| - 1].CellPreview? then 1 else 0)
  }

  datatype Tally = Tally(rows: nat, cells: nat, changed: nat, fullRows: nat, fullCells: nat, previews: seq<Preview>)

  const NO_TALLY := Tally(0, 0, 0, 0, 0, [])

  function Left(room: nat, shown: nat): nat { if shown < room then room - shown else 0 }

  /** One layer's counts and visible candidates, of which at most `room` are built. */
  function LayerTally(b: Bundle, rows: seq<Row>, f: T.Filters, room: nat): Result<Tally, ViewError> {
    if |rows| == 0 then Ok(NO_TALLY)
    else
      var before :- LayerTally(b, rows[..|rows| - 1], f, room);
      TallyRow(b, rows[|rows| - 1], f, room, before)
  }

  function TallyRow(b: Bundle, row: Row, f: T.Filters, room: nat, t: Tally): Result<Tally, ViewError> {
    var previews :- RowPreviews(b, row, f, Blocked(b, row, f, Left(room, |t.previews|)));
    Ok(AddRow(t, previews, |row.cells|))
  }

  function AddRow(t: Tally, previews: seq<Preview>, cellCount: nat): Tally {
    Tally(t.rows + (if previews == [] then 0 else 1), t.cells + CellCount(previews), t.changed + |previews|,
          t.fullRows + 1, t.fullCells + cellCount, t.previews + previews)
  }

  function Taken(previews: seq<Preview>, limit: nat): seq<Preview> {
    if |previews| <= limit then previews else previews[..limit]
  }

  lemma {:induction false} TakenNext(previews: seq<Preview>, more: seq<Preview>, room: nat)
    ensures Taken(previews + more, room) == Taken(previews, room) + Taken(more, Left(room, |Taken(previews, room)|))
  {
    var left := Left(room, |Taken(previews, room)|);
    if |previews| <= room && |previews| + |more| > room {
      assert (previews + more)[..room] == previews + more[..left];
    } else if |previews| > room {
      assert (previews + more)[..room] == previews[..room] && Taken(more, 0) == [];
    }
  }

  lemma {:induction false} CellPreviewsNext(b: Bundle, row: Row, f: T.Filters, blocked: bool, i: nat)
    requires i < |row.cells|
    ensures CellPreviews(b, row, row.cells[..i + 1], f, blocked) ==
      match CellPreviews(b, row, row.cells[..i], f, blocked)
      case Err(e) => Err(e)
      case Ok(found) => CellPreviewNext(b, row, row.cells[i], f, blocked, found)
  {
    hide CellPreviewNext;
    assert row.cells[..i + 1][..i] == row.cells[..i];
  }

  lemma {:induction false} CellPreviewsFail(b: Bundle, row: Row, f: T.Filters, blocked: bool, i: nat)
    requires i <= |row.cells| && CellPreviews(b, row, row.cells[..i], f, blocked).Err?
    ensures CellPreviews(b, row, row.cells, f, blocked) == CellPreviews(b, row, row.cells[..i], f, blocked)
    decreases |row.cells| - i
  {
    hide CellPreviewNext;
    if i < |row.cells| {
      CellPreviewsNext(b, row, f, blocked, i);
      CellPreviewsFail(b, row, f, blocked, i + 1);
    } else {
      assert row.cells[..i] == row.cells;
    }
  }

  lemma {:induction false} NoCellPreviews(b: Bundle, row: Row, f: T.Filters, blocked: bool)
    ensures CellPreviews(b, row, row.cells[..0], f, blocked) == Ok([])
  {
  }

  lemma {:induction false} CellPreviewsAreCells(b: Bundle, row: Row, cells: seq<CellChange>, f: T.Filters,
      blocked: bool)
    requires CellPreviews(b, row, cells, f, blocked).Ok?
    ensures CellCount(CellPreviews(b, row, cells, f, blocked).value) == |CellPreviews(b, row, cells, f, blocked).value|
  {
    hide RootMatches;
    if |cells| > 0 {
      CellPreviewsAreCells(b, row, cells[..|cells| - 1], f, blocked);
      var before := CellPreviews(b, row, cells[..|cells| - 1], f, blocked).value;
      CellCountAppend(before, CellPreviewOf(b, row, f, cells[|cells| - 1]));
    }
  }

  lemma {:induction false} CellCountAppend(previews: seq<Preview>, p: Preview)
    ensures CellCount(previews + [p]) == CellCount(previews) + (if p.CellPreview? then 1 else 0)
  {
    assert (previews + [p])[..|previews|] == previews;
  }

  lemma {:induction false} CellCountConcat(a: seq<Preview>, c: seq<Preview>)
    ensures CellCount(a + c) == CellCount(a) + CellCount(c)
  {
    var n := |c| - 1;
    if n >= 0 {
      CellCountConcat(a, c[..n]);
      assert (a + c)[..|a + c| - 1] == a + c[..n];
    } else {
      assert a + c == a;
    }
  }

  lemma {:induction false} MetadataNotCells(previews: seq<Preview>)
    requires forall i :: 0 <= i < |previews| ==> previews[i].MetadataPreview?
    ensures CellCount(previews) == 0
  {
    if |previews| > 0 { MetadataNotCells(previews[..|previews| - 1]); }
  }

  /** The cell candidates of a row's visible previews are its cell previews. */
  lemma {:induction false} RowCellCount(b: Bundle, row: Row, f: T.Filters, blocked: bool)
    requires RowPreviews(b, row, f, blocked).Ok?
    ensures CellCount(RowPreviews(b, row, f, blocked).value) == |CellPreviews(b, row, row.cells, f, blocked).value|
  {
    hide CellPreviews, SortBy, CellCount, RowRefFor, CellScopeFor;
    MetadataNotCells(VisibleMetadata(b, row, f));
    CellPreviewsAreCells(b, row, row.cells, f, blocked);
    CellCountConcat(VisibleMetadata(b, row, f), CellPreviews(b, row, row.cells, f, blocked).value);
  }

  /** The metadata candidates of a row; those there is room for are built. */
  method ScanMetadata(b: Bundle, row: Row, f: T.Filters, room: nat)
    returns (changed: nat, r: Result<seq<Preview>, ViewError>)
    ensures var all := VisibleMetadata(b, row, f);
      if all != [] && Blocked(b, row, f, room) then r == Err(ResponseInvalid)
      else changed == |all| && r == Ok(Taken(all, room))
  {
    hide SortBy, RowRefFor, CellScopeFor, RowTokensShort, MetadataMatches, FieldKey;
    var changes := SortBy(row.metadataChanges, FieldKey);
    ghost var all := VisibleMetadata(b, row, f);
    var shown: seq<Preview> := [];
    changed := 0;
    if MetadataMatches(f) {
      while changed < |changes|
        invariant changed <= |changes| && shown == Taken(all[..changed], room)
        invariant changed > 0 ==> !Blocked(b, row, f, room)
      {
        assert all[..changed + 1] == all[..changed] + [all[changed]];
        if |shown| < room {
          if !RowTokensShort(b, row, f) { return changed, Err(ResponseInvalid); }
          shown := shown + [MetadataPreviewOf(b, row, f, changes[changed])];
        }
        changed := changed + 1;
      }
      assert all[..changed] == all;
    }
    r := Ok(shown);
  }

  /** The cell candidates of a row, after the previews already shown for it. */
  method ScanCells(b: Bundle, row: Row, f: T.Filters, room: nat, ghost before: seq<Preview>, already: seq<Preview>)
    returns (count: nat, r: Result<seq<Preview>, ViewError>)
    requires already == Taken(before, room) && (before != [] ==> !Blocked(b, row, f, room))
    ensures match CellPreviews(b, row, row.cells, f, Blocked(b, row, f, room))
      case Err(e) => r == Err(e)
      case Ok(found) => count == |found| && r == Ok(Taken(before + found, room))
  {
    hide RootMatches, CellPreviews, RowRefFor, CellScopeFor, RowTokensShort;
    ghost var blocked := Blocked(b, row, f, room);
    ghost var found: seq<Preview> := [];
    assert before + found == before;
    var shown := already;
    NoCellPreviews(b, row, f, blocked);
    count := 0;
    var i := 0;
    while i < |row.cells|
      invariant i <= |row.cells| && CellPreviews(b, row, row.cells[..i], f, blocked) == Ok(found)
      invariant count == |found| && shown == Taken(before + found, room) && (before + found != [] ==> !blocked)
    {
      CellPreviewsNext(b, row, f, blocked, i);
      var matches := RootMatches(b, row, row.cells[i], f);
      if matches.Err? {
        CellPreviewsFail(b, row, f, blocked, i + 1);
        return count, Err(matches.error);
      }
      if matches.value {
        if |shown| < room && !RowTokensShort(b, row, f) {
          CellPreviewsFail(b, row, f, blocked, i + 1);
          return count, Err(ResponseInvalid);
        }
        var p := CellPreviewOf(b, row, f, row.cells[i]);
        assert before + (found + [p]) == (before + found) + [p];
        if |shown| < room { shown := shown + [p]; }
        found := found + [p];
        count := count + 1;
      }
      i := i + 1;
    }
    assert row.cells[..i] == row.cells;
    r := Ok(shown);
  }

  /** The candidates of one row, counted as they are found; at most `room` are built. */
  method ScanRow(b: Bundle, row: Row, f: T.Filters, room: nat) returns (r: Result<Tally, ViewError>)
    ensures r == match RowPreviews(b, row, f, Blocked(b, row, f, room))
      case Err(e) => Err(e)
      case Ok(all) => Ok(Tally(if all == [] then 0 else 1, CellCount(all), |all|, 1, |row.cells|, Taken(all, room)))
  {
    hide VisibleMetadata, CellPreviews, CellCount, Blocked, Taken;
    var changed, metadata := ScanMetadata(b, row, f, room);
    if metadata.Err? { return Err(metadata.error); }
    var count, shown := ScanCells(b, row, f, room, VisibleMetadata(b, row, f), metadata.value);
    if shown.Err? { return Err(shown.error); }
    RowCellCount(b, row, f, Blocked(b, row, f, room));
    r := Ok(Tally(if changed + count > 0 then 1 else 0, count, changed + count, 1, |row.cells|, shown.value));
  }

  lemma {:induction false} LayerTallyNext(b: Bundle, rows: seq<Row>, f: T.Filters, room: nat, i: nat)
    requires i < |rows|
    ensures LayerTally(b, rows[..i + 1], f, room) ==
      match LayerTally(b, rows[..i], f, room) case Err(e) => Err(e) case Ok(t) => TallyRow(b, rows[i], f, room, t)
  {
    hide TallyRow;
    assert rows[..i + 1][..i] == rows[..i];
  }

  lemma {:induction false} LayerTallyFail(b: Bundle, rows: seq<Row>, f: T.Filters, room: nat, i: nat)
    requires i <= |rows| && LayerTally(b, rows[..i], f, room).Err?
    ensures LayerTally(b, rows, f, room) == LayerTally(b, rows[..i], f, room)
    decreases |rows| - i
  {
    hide TallyRow;
    if i < |rows| {
      LayerTallyNext(b, rows, f, room, i);
      LayerTallyFail(b, rows, f, room, i + 1);
    } else {
      assert rows[..i] == rows;
    }
  }

  /** The loop of `_project_root` over one visible layer. */
  method TallyLayer(b: Bundle, f: T.Filters, room: nat) returns (r: Result<Tally, ViewError>)
    ensures r == match LayerTally(b, b.result.rows, f, room)
      case Err(e) => Err(e)
      case Ok(t) => Ok(t.(previews := Taken(t.previews, room)))
  {
    hide RowPreviews, CellCount, LayerTally, Blocked;
    var rows := b.result.rows;
    NoTally(b, rows, f, room);
    ghost var full := NO_TALLY;
    var t := NO_TALLY;
    var i := 0;
    while i < |rows|
      invariant i <= |rows| && LayerTally(b, rows[..i], f, room) == Ok(full)
      invariant t == full.(previews := Taken(full.previews, room))
    {
      LayerTallyNext(b, rows, f, room, i);
      var left := room - |t.previews|;
      assert left == Left(room, |full.previews|);
      var more := ScanRow(b, rows[i], f, left);
      if more.Err? {
        LayerTallyFail(b, rows, f, room, i + 1);
        return Err(more.error);
      }
      ghost var previews := RowPreviews(b, rows[i], f, Blocked(b, rows[i], f, left)).value;
      TakenNext(full.previews, previews, room);
      full := AddRow(full, previews, |rows[i].cells|);
      t := Tally(t.rows + more.value.rows, t.cells + more.value.cells, t.changed + more.value.changed,
                 t.fullRows + 1, t.fullCells + more.value.fullCells, t.previews + more.value.previews);
      i := i + 1;
    }
    assert rows[..i] == rows;
    r := Ok(t);
  }

  lemma {:induction false} NoTally(b: Bundle, rows: seq<Row>, f: T.Filters, room: nat)
    ensures LayerTally(b, rows[..0], f, room) == Ok(NO_TALLY)
  {
  }

  datatype LayerSummary = LayerSummary(
    layerKey: string, sortOrder: int, available: bool, baselineConditions: nat, currentConditions: nat,
    rowCount: nat, cellCount: nat, fullRowCount: nat, fullCellCount: nat, ambiguousLineage: nat, changedCount: nat,
    branchScope: Option<T.Scope>)

  datatype Root = Root(
    rowCount: nat, cellCount: nat, fullRowCount: nat, fullCellCount: nat, ambiguousLineage: nat,
    addedCount: nat, changedCount: nat, clearedCount: nat, removedCount: nat, unchangedCount: nat,
    summaries: seq<LayerSummary>, previews: seq<Preview>)

  const EMPTY_ROOT := Root(0, 0, 0, 0, 0, 0, 0, 0, 0, 0, [], [])

  function BundleOrder(b: Bundle): Key { [Num(b.input.sortOrder), Txt(b.input.layerKey)] }

  function FullCells(rows: seq<Row>): nat {
    if |rows| == 0 then 0 else FullCells(rows[..|rows| - 1]) + |rows[|rows| - 1].cells|
  }

  function SummaryOf(b: Bundle, f: T.Filters, t: Tally): LayerSummary {
    LayerSummary(b.input.layerKey, b.input.sortOrder, !b.result.baselineUnavailable,
                 if b.result.baselineUnavailable || b.input.baseline.None? then 0
                   else |b.input.baseline.value.conditions|,
                 |b.input.conditions|, t.rows, t.cells, t.fullRows, t.fullCells, b.result.ambiguousLineage, t.changed,
                 if b.result.baselineUnavailable then None else Some(BranchScopeFor(b, f)))
  }

  /** The branch scope token of a layer's summary, if it has one, is short enough. */
  predicate SummaryShort(b: Bundle, f: T.Filters) {
    !b.result.baselineUnavailable ==> TokenShort(T.EncodeScope(BranchScopeFor(b, f)))
  }

  /** Every layer adds to the full and classification counts; a visible one also to the filtered ones. */
  function AddLayer(root: Root, b: Bundle, f: T.Filters, shown: Option<Tally>, counters: Counters, limit: nat): Root {
    Root(root.rowCount + (if shown.Some? then shown.value.rows else 0),
      root.cellCount + (if shown.Some? then shown.value.cells else 0),
         root.fullRowCount + |b.result.rows|, root.fullCellCount + FullCells(b.result.rows),
         root.ambiguousLineage + b.result.ambiguousLineage,
         root.addedCount + counters.addedCells, root.changedCount + counters.changedCells + counters.metadata,
         root.clearedCount + counters.clearedCells,
         root.removedCount + counters.removedCells, root.unchangedCount + counters.unchangedCells,
         root.summaries + (if shown.Some? then [SummaryOf(b, f, shown.value)] else []),
         Taken(root.previews + (if shown.Some? then shown.value.previews else []), limit))
  }

  predicate Visible(b: Bundle, layerKey: Option<string>) { layerKey.None? || b.input.layerKey == layerKey.value }

  function RootOf(bundles: seq<Bundle>, f: T.Filters, layerKey: Option<string>, limit: nat): Result<Root, ViewError> {
    if |bundles| == 0 then Ok(EMPTY_ROOT)
    else
      var before :- RootOf(bundles[..|bundles| - 1], f, layerKey, limit);
      RootWith(before, bundles[|bundles| - 1], f, layerKey, limit)
  }

  function RootWith(root: Root, b: Bundle, f: T.Filters, layerKey: Option<string>,
      limit: nat): Result<Root, ViewError> {
    if !Visible(b, layerKey) then Ok(AddLayer(root, b, f, None, Counted(b.result.rows), limit))
    else
      var t :- LayerTally(b, b.result.rows, f, Left(limit, |root.previews|));
      if !SummaryShort(b, f) then Err(ResponseInvalid)
        else Ok(AddLayer(root, b, f, Some(t), Counted(b.result.rows), limit))
  }

  lemma {:induction false} RootOfNext(bundles: seq<Bundle>, f: T.Filters, layerKey: Option<string>, limit: nat, i: nat)
    requires i < |bundles|
    ensures RootOf(bundles[..i + 1], f, layerKey, limit) ==
      match RootOf(bundles[..i], f, layerKey, limit) case Err(e) => Err(e) case Ok(root) => RootWith(root, bundles[i],
        f, layerKey, limit)
  {
    hide RootWith;
    assert bundles[..i + 1][..i] == bundles[..i];
  }

  lemma {:induction false} RootOfFails(bundles: seq<Bundle>, f: T.Filters, layerKey: Option<string>, limit: nat, i: nat)
    requires i <= |bundles| && RootOf(bundles[..i], f, layerKey, limit).Err?
    ensures RootOf(bundles, f, layerKey, limit) == RootOf(bundles[..i], f, layerKey, limit)
    decreases |bundles| - i
  {
    hide RootWith;
    if i < |bundles| {
      RootOfNext(bundles, f, layerKey, limit, i);
      RootOfFails(bundles, f, layerKey, limit, i + 1);
    } else {
      assert bundles[..i] == bundles;
    }
  }

  lemma {:induction false} TallyFull(b: Bundle, rows: seq<Row>, f: T.Filters, room: nat)
    requires LayerTally(b, rows, f, room).Ok?
    ensures var t := LayerTally(b, rows, f, room).value; t.fullRows == |rows| && t.fullCells == FullCells(rows)
  {
    hide RowPreviews, CellCount, Blocked;
    if |rows| > 0 { TallyFull(b, rows[..|rows| - 1], f, room); }
  }

  /** _project_root: layers in order, each counted; previews stop at the limit. */
  method ProjectRoot(bundles: seq<Bundle>, f: T.Filters, layerKey: Option<string>, limit: nat)
    returns (r: Result<Root, ViewError>)
    ensures r == RootOf(SortBy(bundles, BundleOrder), f, layerKey, limit)
  {
    hide SortBy, LayerTally, Counted, RootOf, BundleOrder, FullCells, SummaryShort;
    var ordered := SortBy(bundles, BundleOrder);
    var root := EMPTY_ROOT;
    NothingProjected(ordered, f, layerKey, limit);
    var i := 0;
    while i < |ordered|
      invariant i <= |ordered| && RootOf(ordered[..i], f, layerKey, limit) == Ok(root)
      invariant |root.previews| <= limit
    {
      var b := ordered[i];
      RootOfNext(ordered, f, layerKey, limit, i);
      var counters := Count(b.result.rows);
      var shown: Option<Tally> := None;
      if Visible(b, layerKey) {
        var room := limit - |root.previews|;
        assert room == Left(limit, |root.previews|);
        var t := TallyLayer(b, f, room);
        if t.Err? || !SummaryShort(b, f) {
          RootOfFails(ordered, f, layerKey, limit, i + 1);
          return Err(if t.Err? then t.error else ResponseInvalid);
        }
        shown := Some(t.value);
        TallyFull(b, b.result.rows, f, room);
        TakenTwice(root, b, f, LayerTally(b, b.result.rows, f, room).value, t.value, counters, limit);
      }
      root := AddLayer(root, b, f, shown, counters, limit);
      i := i + 1;
    }
    assert ordered[..i] == ordered;
    r := Ok(root);
  }

  lemma {:induction false} NothingProjected(bundles: seq<Bundle>, f: T.Filters, layerKey: Option<string>, limit: nat)
    ensures RootOf(bundles[..0], f, layerKey, limit) == Ok(EMPTY_ROOT)
  {
  }

  /** Keeping only the previews there is room for changes nothing. */
  lemma {:induction false} TakenTwice(root: Root, b: Bundle, f: T.Filters, full: Tally, kept: Tally,
      counters: Counters, limit: nat)
    requires |root.previews| <= limit && kept == full.(previews := Taken(full.previews, limit - |root.previews|))
    ensures AddLayer(root, b, f, Some(kept), counters, limit) == AddLayer(root, b, f, Some(full), counters, limit)
  {
    hide FullCells;
    var room := limit - |root.previews|;
    if |full.previews| > room {
      assert (root.previews + full.previews)[..limit] == root.previews + full.previews[..room];
    }
  }

  // ---------------------------------------------------------------- condition pages

  /** _page_branch_rows and the response around it: its tokens must be short enough. */
  function PageOfRows(items: seq<ConditionItem>, scope: T.Scope, limit: nat,
      cursor: Option<Key>): Result<KeysetPage<ConditionItem>, ViewError> {
    var page := TakePage(items, ConditionKeyOf, cursor, limit);
    if TokenShort(T.EncodeScope(scope)) && NextShort(scope, page.next) then Ok(page) else Err(ResponseInvalid)
  }

  method PageRows(items: seq<ConditionItem>, scope: T.Scope, limit: nat,
      cursor: Option<Key>) returns (r: Result<KeysetPage<ConditionItem>, ViewError>)
    requires limit > 0
    ensures r == PageOfRows(items, scope, limit, cursor)
  {
    hide After, NextShort, TokenShort;
    var rest := After(items, ConditionKeyOf, cursor);
    var page := if |rest| > limit then rest[..limit] else rest;
    var next: Option<Key> := None;
    if |rest| > limit { next := Some(ConditionKeyOf(page[|page| - 1])); }
    if !TokenShort(T.EncodeScope(scope)) || !NextShort(scope, next) { return Err(ResponseInvalid); }
    r := Ok(KeysetPage(page, next));
  }

  // ---------------------------------------------------------------- cell pages

  function MetadataJson(m: Option<Metadata>): Json {
    match m
    case None => Null
    case Some(d) => Obj([Field("parameter_code", Str(d.code)), Field("value_type", Str(d.valueType)),
      Field("display_name", Str(d.displayName)),
                         Field("category_code", OptionalStr(d.categoryCode)), Field("sort_order", Int(d.sortOrder)),
                         Field("active", Bool(d.active))])
  }

  function ReasonName(r: Reason): string {
    match r
    case ColumnRemoved => "column_removed"
    case ColumnAdded => "column_added"
    case NullEqual => "null_equal"
    case ValueAdded => "value_added"
    case ValueCleared => "value_cleared"
    case ValueEqual => "value_equal"
    case ValueChanged => "value_changed"
    case RowAdded => "row_added"
    case RowRemoved => "row_removed"
  }

  function ItemJson(x: CellItem): Json {
    Obj([Field("classification", Str(ClassName(x.classification))), Field("reason", Str(ReasonName(x.reason))),
         Field("parameter_code", Str(x.code)), Field("parameter_sort", Int(x.sortOrder)),
         Field("baseline_value", OptionalStr(x.baselineValue)), Field("current_value", OptionalStr(x.currentValue)),
         Field("baseline_metadata", MetadataJson(x.baselineMetadata)),
         Field("current_metadata", MetadataJson(x.currentMetadata)),
         Field("jump_status", Str(if x.deleted then "deleted" else "available"))])
  }

  function ItemsJson(items: seq<CellItem>): seq<Json> {
    seq(|items|, i requires 0 <= i < |items| => ItemJson(items[i]))
  }

  /** The cursor behind an item. */
  function CellCursor(scope: T.Scope, x: CellItem): T.Cursor {
    T.Cursor("cell", scope, [Int(x.sortOrder), Str(x.code)])
  }

  function CursorText(scope: T.Scope, next: Option<CellItem>): Option<string> {
    match next case None => None case Some(x) => Some(T.EncodeCursor(CellCursor(scope, x)))
  }

  /** _cell_page_response_size: the UTF-8 length of the page's JSON text. */
  function ResponseSize(scope: T.Scope, items: seq<CellItem>, next: Option<CellItem>): nat
    requires scope.CellScope?
  {
    |EncodeText(Print(Obj([
      Field("scope", Str(T.EncodeScope(scope))), Field("basis_hash", Str(scope.basisHash)),
      Field("row_ref", Str(T.EncodeRowRef(scope.rowRef))),
      Field("items", Arr(ItemsJson(items))), Field("next_cursor", OptionalStr(CursorText(scope, next)))])))|
  }

  /** The item the next cursor of a page of `n` items stands behind, while more items remain. */
  function NextOf(items: seq<CellItem>, n: nat): Option<CellItem>
    requires n <= |items|
  {
    if 0 < n < |items| then Some(items[n - 1]) else None
  }

  predicate Fits(scope: T.Scope, items: seq<CellItem>, n: nat)
    requires n <= |items| && scope.CellScope?
  {
    ResponseSize(scope, items[..n], NextOf(items, n)) <= MAX_CELL_RESPONSE_BYTES
  }

  /** How many items the budget loop selects after `n`: it stops at the first that does not fit. */
  function FitCount(scope: T.Scope, items: seq<CellItem>, limit: nat, n: nat): (m: nat)
    requires n <= |items| && n <= limit && scope.CellScope?
    ensures n <= m <= |items| && m <= limit
    decreases |items| - n
  {
    if n < limit && n < |items| && Fits(scope, items, n + 1) then FitCount(scope, items, limit, n + 1) else n
  }

  lemma {:induction false} FitCountBounds(scope: T.Scope, items: seq<CellItem>, limit: nat, n: nat)
    requires n <= |items| && n <= limit && scope.CellScope?
    ensures FitCount(scope, items, limit, n) > n ==> Fits(scope, items, FitCount(scope, items, limit, n))
    ensures var m := FitCount(scope, items, limit, n); m == limit || m == |items| || !Fits(scope, items, m + 1)
    decreases |items| - n
  {
    hide Fits;
    if n < limit && n < |items| && Fits(scope, items, n + 1) { FitCountBounds(scope, items, limit, n + 1); }
  }

  /** _page_cell_items_with_budget */
  method SelectWithinBudget(items: seq<CellItem>, scope: T.Scope, limit: nat)
    returns (r: Result<seq<CellItem>, ViewError>)
    requires scope.CellScope?
    ensures var n := FitCount(scope, items, limit, 0);
      r == if n == 0 && items != [] then Err(ResponseTooLarge) else Ok(items[..n])
  {
    hide ResponseSize;
    var maxItems := if limit < |items| then limit else |items|;
    var selected: seq<CellItem> := [];
    var index := 0;
    while index < maxItems
      invariant index <= maxItems && selected == items[..index]
      invariant FitCount(scope, items, limit, 0) == FitCount(scope, items, limit, index)
    {
      var candidate := selected + [items[index]];
      var next := if index + 1 < |items| then Some(candidate[|candidate| - 1]) else None;
      assert candidate == items[..index + 1] && next == NextOf(items, index + 1);
      if ResponseSize(scope, candidate, next) > MAX_CELL_RESPONSE_BYTES { break; }
      selected := candidate;
      index := index + 1;
    }
    if selected == [] && items != [] { return Err(ResponseTooLarge); }
    r := Ok(selected);
  }

  /** The tokens of a cell page's response are short enough. */
  predicate CellResponseShort(scope: T.Scope, next: Option<Key>)
    requires scope.CellScope?
  {
    TokensShort(scope.rowRef, scope) && NextShort(scope, next)
  }

  /** _page_cell_items and the response around it: the items after the cursor, within limit and budget. */
  function PageOfCells(items: seq<CellItem>, scope: T.Scope, limit: nat,
      cursor: Option<Key>): Result<KeysetPage<CellItem>, ViewError>
    requires scope.CellScope?
  {
    var rest := After(items, ItemKey, cursor);
    var n := FitCount(scope, rest, limit, 0);
    if n == 0 && rest != [] then Err(ResponseTooLarge)
    else
      var next := if n < |rest| then Some(ItemKey(rest[n - 1])) else None;
      if CellResponseShort(scope, next) then Ok(KeysetPage(rest[..n], next)) else Err(ResponseInvalid)
  }

  method PageCells(items: seq<CellItem>, scope: T.Scope, limit: nat,
      cursor: Option<Key>) returns (r: Result<KeysetPage<CellItem>, ViewError>)
    requires scope.CellScope?
    ensures r == PageOfCells(items, scope, limit, cursor)
  {
    hide ResponseSize, FitCount, After, CellResponseShort;
    var rest := After(items, ItemKey, cursor);
    var page := SelectWithinBudget(rest, scope, limit);
    if page.Err? { return Err(page.error); }
    var next := if |page.value| < |rest| then Some(ItemKey(page.value[|page.value| - 1])) else None;
    if !CellResponseShort(scope, next) { return Err(ResponseInvalid); }
    r := Ok(KeysetPage(page.value, next));
  }
}
