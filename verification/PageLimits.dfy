/**
 * When a page cannot be built because a token in it is too long (backend/app/features/backbone_diff/
 * schema.py, provider.py): never because of a condition cursor, and two layers where it happens.
 */
module PageLimits {
  import opened Results
  import opened Ordering
  import opened Json
  import opened JsonSizes
  import opened Paging
  import opened BaselineSnapshot
  import opened BackboneDiff
  import opened DiffLaws
  import opened DiffOrders
  import opened DiffViews
  import opened DiffViewLaws
  import opened PageWalks
  import opened ResponseSizes
  import opened PageLosses
  import T = Tokens
  import V = Validation

  // ---------------------------------------------------------------- condition cursors are short

  /** The item belongs to the scope and carries its own id in its reference. */
  predicate ItemOfScope(scope: T.Scope, x: ConditionItem) {
    && scope.BranchScope?
    && x.cellScope == T.CellScope(scope.projectId, scope.layerKey, scope.basisHash, x.rowRef, scope.filters)
    && (x.rowRef.currentId == Some(x.identity) || x.rowRef.baselineId == Some(x.identity))
  }

  lemma {:induction false} SomeIntSize(id: Option<int>)
    ensures Size(T.OptionalInt(id)) > 0
  {
    hide Size;
    SizePositive(T.OptionalInt(id));
  }

  lemma {:induction false} SizePositive(v: Json)
    ensures Size(v) > 0
  {
    PrintStarts(v);
  }

  /** The row reference's size exceeds its own id's by more than the rest of a cursor can take. */
  lemma {:induction false} RowRefOutweighs(r: T.RowRef, id: int)
    requires r.currentId == Some(id) || r.baselineId == Some(id)
    ensures Size(Obj(T.RowRefFields(r))) > 120 + Size(Int(id))
  {
    hide Size, T.RowRefFields;
    RowRefSize(r);
    SomeIntSize(r.currentId);
    SomeIntSize(r.baselineId);
    SizePositive(Str(r.layerKey));
    SizePositive(Int(r.projectId));
    SizePositive(Str(r.rowStatus));
  }

  /** Where the item's own tokens are short enough, so is the cursor behind it. */
  lemma {:induction false} ItemCursorShort(scope: T.Scope, x: ConditionItem)
    requires ItemOfScope(scope, x) && TokenShort(T.EncodeScope(x.cellScope))
    requires 0 <= x.effectiveIndex < 1_000_000_000_000_000_000
    ensures CursorShort(scope, ConditionKeyOf(x))
  {
    hide Size, T.ScopeFields, T.CursorFields, T.RowRefFields, T.FiltersFields, TokenShort;
    var c := CursorFor(scope, ConditionKeyOf(x));
    var i, r, d := Int(x.effectiveIndex), Int(StatusRank(x.status)), Int(x.identity);
    assert c.sortKey == [i, r, d];
    CursorSize(c);
    TripleSize(i, r, d);
    CountSize(x.effectiveIndex);
    SmallInt(StatusRank(x.status));
    PlainScopeNames();
    PlainText("branch");
    BranchScopeSize(scope);
    CellScopeSize(x.cellScope);
    RowRefOutweighs(x.rowRef, x.identity);
    ShortBytes(T.ScopeFields(x.cellScope));
    ShortBytes(T.CursorFields(c));
  }

  /** Listed items come from rows whose tokens are short enough. */
  lemma {:induction false} ListedFrom(b: Bundle, rows: seq<Row>, f: T.Filters)
    requires BranchRows(b, rows, f).Ok?
    ensures var items := BranchRows(b, rows, f).value;
      forall i :: 0 <= i < |items| ==> exists k ::
        0 <= k < |rows| && RowTokensShort(b, rows[k], f)
          && items[i] == ConditionItemOf(b, rows[k], f, items[i].filteredCellCount)
  {
    hide CellItems, ConditionItemOf, MetadataVisible, RowTokensShort;
    var n := |rows| - 1;
    if n >= 0 {
      ListedFrom(b, rows[..n], f);
      var before, items := BranchRows(b, rows[..n], f).value, BranchRows(b, rows, f).value;
      forall i | 0 <= i < |items|
        ensures exists k ::
          0 <= k < |rows| && RowTokensShort(b, rows[k], f)
            && items[i] == ConditionItemOf(b, rows[k], f, items[i].filteredCellCount)
      {
        if i < |before| {
          var k :| 0 <= k < n && RowTokensShort(b, rows[..n][k], f) && before[i] == ConditionItemOf(b, rows[..n][k], f,
            before[i].filteredCellCount);
          assert RowTokensShort(b, rows[k], f)
            && items[i] == ConditionItemOf(b, rows[k], f, items[i].filteredCellCount);
        } else {
          ItemCount(b, rows[n], f, |CellItems(b, rows[n].status, rows[n].cells, f).value|);
          assert RowTokensShort(b, rows[n], f)
            && items[i] == ConditionItemOf(b, rows[n], f, items[i].filteredCellCount);
        }
      }
    }
  }

  lemma {:induction false} ListedItemOfScope(b: Bundle, row: Row, scope: T.Scope, count: nat)
    requires scope.BranchScope? && b.projectId == scope.projectId && b.basisHash == scope.basisHash
    requires b.input.layerKey == scope.layerKey
    requires IdentifiedByIds(row)
    ensures ItemOfScope(scope, ConditionItemOf(b, row, scope.filters, count))
  {
    hide HasChange;
  }

  /**
   * Condition pages never fail over a cursor: once the items of a layer can be built, the cursor
   * behind each is short, for condition indexes below 10^18.
   */
  lemma {:induction false} ConditionCursorsShort(l: LayerInput, scope: T.Scope)
    requires CompareLayer(l).Ok? && ValidLayer(l) && scope.BranchScope? && l.layerKey == scope.layerKey
    requires BranchRows(BundleFor(scope.projectId, scope.basisHash, l), CompareLayer(l).value.rows, scope.filters).Ok?
    requires forall i :: 0 <= i < |CompareLayer(l).value.rows| ==>
      CompareLayer(l).value.rows[i].effectiveIndex < 1_000_000_000_000_000_000
    ensures AllCursorsShort(BranchRows(BundleFor(scope.projectId, scope.basisHash, l), CompareLayer(l).value.rows,
      scope.filters).value, scope)
  {
    hide PrepareLayer, ComparePrepared, BranchRows, CursorShort, TokenShort, IdentifiedByIds, IdentityKey, ItemOfScope,
         ConditionKeyOf, HasChange, WellFormed, StrictlySorted;
    var b, rows := BundleFor(scope.projectId, scope.basisHash, l), CompareLayer(l).value.rows;
    var items := BranchRows(b, rows, scope.filters).value;
    ListedFrom(b, rows, scope.filters);
    RowsKeyed(l);
    BaselineConditionsDistinct(l);
    RowsIdentified(l);
    forall k | 0 <= k < |items| - 1 ensures CursorShort(scope, ConditionKeyOf(items[k])) {
      var m :| 0 <= m < |rows| && RowTokensShort(b, rows[m], scope.filters) && items[k] == ConditionItemOf(b, rows[m],
        scope.filters, items[k].filteredCellCount);
      ListedItemOfScope(b, rows[m], scope, items[k].filteredCellCount);
      assert RowKeyed(rows[m]);
      ItemCursorShort(scope, items[k]);
    }
  }

  lemma {:induction false} BaselineConditionsDistinct(l: LayerInput)
    requires ValidLayer(l)
    ensures l.baseline.Some? ==> DistinctConditions(l.baseline.value.conditions)
  {
    hide StoredCondition, ValidColumn, DistinctConditions;
  }

  /** No walk of condition pages through tokens fails. */
  lemma {:induction false} ConditionWalksSucceed(l: LayerInput, scope: T.Scope, limits: seq<nat>)
    requires CompareLayer(l).Ok? && ValidLayer(l) && scope.BranchScope? && l.layerKey == scope.layerKey
    requires T.ValidScope(scope) && TokenShort(T.EncodeScope(scope))
    requires BranchRows(BundleFor(scope.projectId, scope.basisHash, l), CompareLayer(l).value.rows, scope.filters).Ok?
    requires forall i :: 0 <= i < |CompareLayer(l).value.rows| ==>
      CompareLayer(l).value.rows[i].effectiveIndex < 1_000_000_000_000_000_000
    requires Positive(limits)
    ensures var items := BranchRows(BundleFor(scope.projectId, scope.basisHash, l), CompareLayer(l).value.rows,
      scope.filters).value;
      var r := FollowTokens(scope, RowPager(items, scope), limits);
      r.Ok? && r.value.collected == if |limits| > 0 && Sum(limits) >= |items| then items else items[..Sum(limits)]
  {
    hide CompareLayer, PrepareLayer, BranchRows, FollowTokens, RowPager, ValidLayer, T.ValidScope, TokenShort,
         AllCursorsShort, MeetsLong;
    ConditionCursorsShort(l, scope);
    var items := BranchRows(BundleFor(scope.projectId, scope.basisHash, l), CompareLayer(l).value.rows,
      scope.filters).value;
    EveryConditionWalk(items, scope);
    ConditionPagesCollect(scope.projectId, scope.basisHash, l, scope, limits);
  }

  // ---------------------------------------------------------------- a layer with a long key

  function LongParameter(): CurrentParameter { CurrentParameter(Controls(64), V.Text, "P", None, 0, true) }

  const SHORT_PARAMETER := CurrentParameter("b", V.Text, "B", None, 1, true)

  const NEW_CONDITION := CurrentCondition(1, None, "Row", 0, true, [])

  function EmptyBaseline(): Snapshot {
    Snapshot("00000000000000000000000000000000", Instant(2024, 1, 1, 0, 0, 0, 0), Source(1, 1, "L", "S", "I"), [], [])
  }

  /** A layer whose key is `n` control characters, with one new row and two columns. */
  function ControlLayer(n: nat): LayerInput {
    LayerInput(Controls(n), 0, CurrentSource(1, 1, Controls(n), "S", "I", 0, None, None), Some(EmptyBaseline()),
      [NEW_CONDITION], [LongParameter(), SHORT_PARAMETER])
  }

  function ControlBundle(n: nat): Bundle
    requires CompareLayer(ControlLayer(n)).Ok?
  {
    BundleFor(1, ZeroHash(), ControlLayer(n))
  }

  lemma {:induction false} ControlCodes()
    ensures Controls(64) != "" && Controls(64) != "b" && |Controls(64)| == 64
  {
  }

  lemma {:induction false} OrdersAscend(a: string, b: string)
    ensures KeyLess([Num(0), Txt(a)], [Num(1), Txt(b)]) && !KeyLess([Num(1), Txt(b)], [Num(0), Txt(a)])
  {
  }

  lemma {:induction false} ControlLayerIsValid(n: nat)
    requires n > 0
    ensures ValidLayer(ControlLayer(n))
  {
    hide KeyLess, TextLess, Controls;
    ControlCodes();
    OrdersAscend(Controls(64), "b");
  }

  lemma {:induction false} ControlSelection()
    ensures SelectParameters([LongParameter(), SHORT_PARAMETER], {}) == Ok([LongParameter(), SHORT_PARAMETER])
  {
    hide Controls, KeyLess;
    var ps, one := [LongParameter(), SHORT_PARAMETER], [LongParameter()];
    assert ps[..1] == one && one[..0] == [];
    assert Selected(one, {}) == one;
    assert Selected(ps, {}) == ps;
    OrdersAscend(Controls(64), "b");
    SortFixed(ps, ParameterOrder);
  }

  lemma {:induction false} ControlPrepared(n: nat)
    ensures var r := PrepareLayer(ControlLayer(n));
      && r.Ok? && r.value.columns == map[] && r.value.selected == [LongParameter(), SHORT_PARAMETER]
      && r.value.conditions == [PreparedCondition(NEW_CONDITION, map[], [])]
  {
    hide SelectParameters, BuildPlan, LayerBasis, Controls, PrepareConditions, StoredCodes;
    ControlSelection();
    NoStoredCodes();
    ControlConditions([LongParameter(), SHORT_PARAMETER]);
  }

  lemma {:induction false} NoStoredCodes()
    ensures StoredCodes([NEW_CONDITION]) == {}
  {
    assert [NEW_CONDITION][..0] == [];
  }

  lemma {:induction false} ControlConditions(selected: seq<CurrentParameter>)
    ensures PrepareConditions(map[], selected, [NEW_CONDITION]) == Ok([PreparedCondition(NEW_CONDITION, map[], [])])
  {
    var none: seq<CurrentCondition> := [];
    assert [NEW_CONDITION][..0] == none && PrepareConditions(map[], selected, none) == Ok([]);
    var empty: seq<PreparedCondition> := [];
    var x := PreparedCondition(NEW_CONDITION, map[], []);
    assert PrepareCondition(map[], selected, NEW_CONDITION) == Ok(x) && empty + [x] == [x];
  }

  /** The new row: two added cells without value, the long code first. */
  predicate IsControlRow(row: Row) {
    && row.status == Added && row.currentId == Some(1) && row.effectiveIndex == 0 && |row.cells| == 2
    && row.metadataChanges == []
    && row.cells[0] == CellChange(Controls(64), 0, AddedCell, RowAdded, None, None)
    && row.cells[1] == CellChange("b", 1, AddedCell, RowAdded, None, None)
  }

  lemma {:induction false} OneNewRow(key: string, plan: Plan, c: PreparedCondition)
    requires PlanComplete(plan) && c.condition.sourceId.None?
    ensures SortBy(AllRows(key, plan, [], [c]), RowOrder) == [AddedRow(key, plan, c)]
  {
    hide PlanComplete, AddedRow;
    assert [c][..0] == [];
    assert Unmatched([c], SourceIds([])) == [c];
    assert AllRows(key, plan, [], [c]) == [AddedRow(key, plan, c)];
  }

  lemma {:induction false} ControlCompared(n: nat)
    requires n > 0
    ensures ValidLayer(ControlLayer(n)) && CompareLayer(ControlLayer(n)).Ok?
    ensures var rows := CompareLayer(ControlLayer(n)).value.rows; |rows| == 1 && IsControlRow(rows[0])
  {
    hide PrepareLayer, BuildPlan, PlanComplete, Controls, AllRows, SortBy, Counted, AmbiguousCount, ValidLayer,
         AddedCells;
    ControlLayerIsValid(n);
    ControlPrepared(n);
    var l := ControlLayer(n);
    PreparedPlanComplete(l);
    PreparedParts(l);
    var p := PrepareLayer(l).value;
    var c := PreparedCondition(NEW_CONDITION, map[], []);
    OneNewRow(l.layerKey, p.plan, c);
    ControlCells(p.plan, c);
  }

  lemma {:induction false} ControlCells(plan: Plan, c: PreparedCondition)
    requires plan == BuildPlan(map[], [LongParameter(), SHORT_PARAMETER]) && PlanComplete(plan) && c.values == map[]
    ensures AddedCells(plan, c) ==
      [CellChange(Controls(64), 0, AddedCell, RowAdded, None, None),
        CellChange("b", 1, AddedCell, RowAdded, None, None)]
  {
    var selected := [LongParameter(), SHORT_PARAMETER];
    ControlCodes();
    PlanLists(map[], selected);
    ControlCodeSet();
    hide BuildPlan, Controls, KeyLess, ParameterCodes, Distinct', ShownOrder, StrictlySorted, BaselineOrder,
         CoordinateOrder, PlanCoordinate;
    var codes := plan.addedCodes;
    assert |codes| == 2 by { assert |{Controls(64), "b"}| == 2; }
    assert Controls(64) in codes && "b" in codes && codes[0] in codes && codes[1] in codes;
    ControlOrders(codes);
    ShownAt(map[], selected, codes[0]);
    ShownAt(map[], selected, codes[1]);
    ControlShown();
  }

  lemma {:induction false} ControlCodeSet()
    ensures ParameterCodes([LongParameter(), SHORT_PARAMETER]) == {Controls(64), "b"}
  {
    var ps := [LongParameter(), SHORT_PARAMETER];
    assert ps[0].code == Controls(64) && ps[1].code == "b";
  }

  lemma {:induction false} ControlShown()
    ensures ShownOrder(map[], [LongParameter(), SHORT_PARAMETER], Controls(64)) == 0
    ensures ShownOrder(map[], [LongParameter(), SHORT_PARAMETER], "b") == 1
  {
    hide Controls;
    ControlCodes();
    var ps, one := [LongParameter(), SHORT_PARAMETER], [LongParameter()];
    assert ps[..1] == one;
    assert FindParameter(one, Controls(64)) == Some(LongParameter());
    assert FindParameter(ps, Controls(64)) == Some(LongParameter()) && FindParameter(ps, "b") == Some(SHORT_PARAMETER);
  }

  lemma {:induction false} ControlOrders(codes: seq<string>)
    requires |codes| == 2 && StrictlySorted(codes, CoordinateOrder(map[], [LongParameter(), SHORT_PARAMETER]))
    requires forall c :: c in codes ==> c == Controls(64) || c == "b"
    ensures codes == [Controls(64), "b"]
  {
    hide Controls, ShownOrder, KeyLess;
    ControlShown();
    ControlCodes();
    var key := CoordinateOrder(map[], [LongParameter(), SHORT_PARAMETER]);
    assert key(Controls(64)) == [Num(0), Txt(Controls(64))] && key("b") == [Num(1), Txt("b")];
    OrdersAscend(Controls(64), "b");
    assert codes[0] in codes && codes[1] in codes && KeyLess(key(codes[0]), key(codes[1]));
    KeyTotal(key(codes[0]), key(codes[1]));
    KeyTotal(key(codes[0]), key(codes[0]));
    KeyTotal(key(codes[1]), key(codes[1]));
  }

  // ---------------------------------------------------------------- pages that cannot be built

  /** The scope of the new row's cells, unfiltered. */
  function ControlScope(n: nat): T.Scope {
    T.CellScope(1, Controls(n), ZeroHash(), T.RowRef(1, Controls(n), "added", None, Some(1)), NO_FILTERS)
  }

  function ControlBranch(n: nat): T.Scope { T.BranchScope(1, Controls(n), ZeroHash(), NO_FILTERS) }

  lemma {:induction false} ControlSizes(n: nat)
    ensures Size(Obj(T.RowRefFields(ControlScope(n).rowRef))) == 135 + 6 * n
    ensures Size(Obj(T.ScopeFields(ControlScope(n)))) == 390 + 12 * n
    ensures Size(Obj(T.ScopeFields(ControlBranch(n)))) == 246 + 6 * n
  {
    hide Size, Controls, ZeroHash, T.RowRefFields, T.ScopeFields, T.FiltersFields, Plain;
    RowRefSize(ControlScope(n).rowRef);
    CellScopeSize(ControlScope(n));
    BranchScopeSize(ControlBranch(n));
    ControlsText(n);
    ZeroHashSize();
    NoFiltersSize();
    SmallInt(1);
    NullSize();
    AddedSize();
  }

  lemma {:induction false} AddedSize()
    ensures Size(Str("added")) == 7
  {
    hide Size;
    PlainText("added");
  }

  lemma {:induction false} ControlScopesAreValid(n: nat)
    requires 0 < n <= 256
    ensures T.ValidScope(ControlScope(n)) && T.ValidScope(ControlBranch(n))
  {
    hide Controls, T.ValidText, T.ValidBasisHash, T.ValidFilters, ZeroHash;
    ControlsValid(n);
    ZeroHashSize();
    NoFiltersSize();
  }

  lemma {:induction false} ControlItems(n: nat)
    requires n > 0 && CompareLayer(ControlLayer(n)).Ok? && |CompareLayer(ControlLayer(n)).value.rows| == 1
    requires IsControlRow(CompareLayer(ControlLayer(n)).value.rows[0])
    ensures var b, row := ControlBundle(n), CompareLayer(ControlLayer(n)).value.rows[0];
      var r := CellItems(b, Added, row.cells, NO_FILTERS);
      && r.Ok? && |r.value| == 2 && ItemKey(r.value[0]) == [Num(0), Txt(Controls(64))]
      && CellScopeFor(b, row, NO_FILTERS) == ControlScope(n) && BranchScopeFor(b, NO_FILTERS) == ControlBranch(n)
  {
    hide CompareLayer, PrepareLayer, CellItems, Controls, ZeroHash, ItemKey;
    var b, row := ControlBundle(n), CompareLayer(ControlLayer(n)).value.rows[0];
    assert forall i :: 0 <= i < 2 ==> PublicCell(row.cells[i]);
    UnfilteredItems(b, Added, row.cells);
    assert CellOrder(row.cells[0]) == [Num(0), Txt(Controls(64))];
  }

  /** The drill-down of one listed row. */
  lemma {:induction false} OneListedRow(b: Bundle, row: Row, f: T.Filters)
    requires CellItems(b, row.status, row.cells, f).Ok? && |CellItems(b, row.status, row.cells, f).value| > 0
    ensures BranchRows(b, [row], f) ==
      if RowTokensShort(b, row, f) then Ok([ConditionItemOf(b, row, f, |CellItems(b, row.status, row.cells, f).value|)])
        else Err(ResponseInvalid)
  {
    hide CellItems, RowTokensShort, ConditionItemOf;
    var none: seq<Row> := [];
    var nothing: seq<ConditionItem> := [];
    assert [row][..0] == none && BranchRows(b, none, f) == Ok(nothing);
    var x := ConditionItemOf(b, row, f, |CellItems(b, row.status, row.cells, f).value|);
    assert nothing + [x] == [x];
  }

  /** What the root view counts for it when it builds no preview. */
  lemma {:induction false} OneCountedRow(b: Bundle, row: Row, f: T.Filters)
    requires RowAuthority(b.columns, b.selected, row) && CellItems(b, row.status, row.cells, f).Ok?
    requires |CellItems(b, row.status, row.cells, f).value| > 0
    ensures var t := LayerTally(b, [row], f, 0);
      t.Ok? && t.value.rows == 1 && t.value.cells == |CellItems(b, row.status, row.cells, f).value|
  {
    RowAgrees(b, row, f);
    hide CellItems, RowTokensShort, RowPreviews, CellCount, RowAuthority;
    var none: seq<Row> := [];
    assert [row][..0] == none && LayerTally(b, none, f, 0) == Ok(NO_TALLY);
  }

  /**
   * A valid layer whose root view counts a row and hands out a scope for it, but whose condition
   * page cannot be built, because its item's cell scope token is too long.
   */
  lemma {:induction false} LongConditionPage()
    ensures ValidLayer(ControlLayer(230)) && CompareLayer(ControlLayer(230)).Ok?
    ensures var b := ControlBundle(230); var rows := b.result.rows;
      && T.ValidScope(BranchScopeFor(b, NO_FILTERS)) && SummaryShort(b, NO_FILTERS)
      && LayerTally(b, rows, NO_FILTERS, 0).Ok? && LayerTally(b, rows, NO_FILTERS, 0).value.rows == 1
      && BranchRows(b, rows, NO_FILTERS) == Err(ResponseInvalid)
  {
    hide CompareLayer, PrepareLayer, CellItems, Controls, ZeroHash, ItemKey, LayerTally, BranchRows, T.ValidScope,
         T.ScopeFields, Size, RowAuthority, TokenShort, ValidLayer;
    ControlCompared(230);
    ControlItems(230);
    ControlScopesAreValid(230);
    ControlSizes(230);
    var b := ControlBundle(230);
    var row := b.result.rows[0];
    assert b.result.rows == [row];
    ComparedAuthority(1, ZeroHash(), ControlLayer(230));
    ShortBytes(T.ScopeFields(ControlScope(230)));
    ShortBytes(T.ScopeFields(ControlBranch(230)));
    OneListedRow(b, row, NO_FILTERS);
    OneCountedRow(b, row, NO_FILTERS);
  }

  lemma {:induction false} LongCursor()
    ensures !CursorShort(ControlScope(200), [Num(0), Txt(Controls(64))])
  {
    hide Size, Controls, T.ScopeFields, T.CursorFields, TokenShort;
    var c := CursorFor(ControlScope(200), [Num(0), Txt(Controls(64))]);
    assert c.sortKey == [Int(0), Str(Controls(64))];
    CursorSize(c);
    ControlSizes(200);
    PairSize(Int(0), Str(Controls(64)));
    SmallInt(0);
    ControlsText(64);
    PlainScopeNames();
    PlainText("cell");
    ShortBytes(T.CursorFields(c));
  }

  /** The items of the new row are small enough for the byte budget. */
  lemma {:induction false} ControlItemSmall(b: Bundle, c: CellChange)
    requires b.columns == map[] && b.selected == [LongParameter(), SHORT_PARAMETER] && |c.code| <= 64
    requires 0 <= c.sortOrder < 10
    requires c.baselineValue.None? && c.currentValue.None?
    ensures ItemOf(b, Added, c).Ok? && SmallItem(ItemOf(b, Added, c).value)
  {
    FindParameterMember(b.selected, c.code);
    var found := FindParameter(b.selected, c.code);
    if found.Some? { assert found.value == LongParameter() || found.value == SHORT_PARAMETER; }
  }

  /**
   * A valid layer whose condition page is built, with a cell scope whose first page of one item
   * cannot be, because its cursor is too long.
   */
  lemma {:induction false} LongCellPage()
    ensures ValidLayer(ControlLayer(200)) && CompareLayer(ControlLayer(200)).Ok?
    ensures |CompareLayer(ControlLayer(200)).value.rows| == 1
    ensures var b, row := ControlBundle(200), CompareLayer(ControlLayer(200)).value.rows[0];
      var listed, items := BranchRows(b, [row], NO_FILTERS), CellItems(b, row.status, row.cells, NO_FILTERS);
      && listed.Ok? && |listed.value| == 1 && T.ValidScope(listed.value[0].cellScope)
      && listed.value[0].cellScope.CellScope?
      && items.Ok? && |items.value| == 2
      && PageOfCells(items.value, listed.value[0].cellScope, 1, None) == Err(ResponseInvalid)
  {
    hide CompareLayer, PrepareLayer, CellItems, Controls, ZeroHash, ItemKey, BranchRows, T.ValidScope, T.ScopeFields,
         T.RowRefFields, Size, TokenShort, ValidLayer, PageOfCells, HasChange;
    ControlCompared(200);
    ControlItems(200);
    ControlScopesAreValid(200);
    ControlSizes(200);
    var b, row := ControlBundle(200), CompareLayer(ControlLayer(200)).value.rows[0];
    ShortBytes(T.ScopeFields(ControlScope(200)));
    ShortBytes(T.RowRefFields(ControlScope(200).rowRef));
    OneListedRow(b, row, NO_FILTERS);
    FirstOfTwo(b, row);
  }

  /** A first page of one item whose cursor is too long. */
  lemma {:induction false} FirstPageTooLong(items: seq<CellItem>, scope: T.Scope)
    requires scope.CellScope? && |items| > 1 && Fits(scope, items, 1) && !CursorShort(scope, ItemKey(items[0]))
    ensures PageOfCells(items, scope, 1, None) == Err(ResponseInvalid)
  {
    hide ItemKey, CursorShort, Fits, TokensShort;
    FirstFits(scope, items, 1);
    assert After(items, ItemKey, None) == items;
  }

  lemma {:induction false} ControlItemsSmall(b: Bundle, row: Row)
    requires IsControlRow(row) && b.columns == map[] && b.selected == [LongParameter(), SHORT_PARAMETER]
    requires CellItems(b, Added, row.cells, NO_FILTERS).Ok?
    ensures var items := CellItems(b, Added, row.cells, NO_FILTERS).value; forall i :: 0 <= i < |items| ==>
      SmallItem(items[i])
  {
    hide CellItems, Controls, ItemOf, SmallItem;
    ControlCodes();
    ItemsFromCells(b, Added, row.cells, NO_FILTERS);
    var items := CellItems(b, Added, row.cells, NO_FILTERS).value;
    forall i | 0 <= i < |items| ensures SmallItem(items[i]) {
      var k :| 0 <= k < |row.cells| && ItemOf(b, Added, row.cells[k]) == Ok(items[i]);
      ControlItemSmall(b, row.cells[k]);
    }
  }

  lemma {:induction false} FirstOfTwo(b: Bundle, row: Row)
    requires IsControlRow(row) && CompareLayer(ControlLayer(200)).Ok? && b == ControlBundle(200)
    requires CellItems(b, Added, row.cells, NO_FILTERS).Ok? && |CellItems(b, Added, row.cells, NO_FILTERS).value| == 2
    requires ItemKey(CellItems(b, Added, row.cells, NO_FILTERS).value[0]) == [Num(0), Txt(Controls(64))]
    requires TokensShort(ControlScope(200).rowRef, ControlScope(200)) && T.ValidScope(ControlScope(200))
    ensures PageOfCells(CellItems(b, Added, row.cells, NO_FILTERS).value, ControlScope(200), 1, None) ==
      Err(ResponseInvalid)
  {
    ControlDictionaries();
    hide CompareLayer, CellItems, Controls, ZeroHash, ItemKey, T.ValidScope, TokenShort, CursorShort, Fits, PageOfCells,
         SmallItem, BundleFor, IsControlRow;
    var items := CellItems(b, Added, row.cells, NO_FILTERS).value;
    ControlItemsSmall(b, row);
    SmallItemFits(ControlScope(200), items);
    LongCursor();
    FirstPageTooLong(items, ControlScope(200));
  }

  lemma {:induction false} ControlDictionaries()
    requires CompareLayer(ControlLayer(200)).Ok?
    ensures ControlBundle(200).columns == map[] && ControlBundle(200).selected == [LongParameter(), SHORT_PARAMETER]
  {
    hide CompareLayer, PrepareLayer, Controls, ZeroHash;
    ControlPrepared(200);
  }
}
