/**
 * The views of a comparison agree with each other, and its references name rows
 * (backend/app/features/backbone_diff/provider.py).
 */
module DiffViewLaws {
  import opened Results
  import opened Ordering
  import opened BaselineSnapshot
  import opened BackboneDiff
  import opened DiffLaws
  import opened DiffOrders
  import opened DiffViews
  import C = DiffCache
  import T = Tokens

  /** The bundle of a compared layer in a project with the basis hash. */
  function BundleFor(projectId: int, hash: string, l: LayerInput): Bundle
    requires CompareLayer(l).Ok?
  {
    Bundle(projectId, hash, l, CompareLayer(l).value, PrepareLayer(l).value.columns, PrepareLayer(l).value.selected)
  }

  /** The codes the provider selects parameters for: active ones and those with stored values. */
  function SelectedCodes(l: LayerInput): set<string> { C.ActiveCodes(l.parameters) + StoredCodes(l.conditions) }

  /**
   * The dictionaries the provider builds anew from the layer's input are those of the comparison,
   * and no selected code lacks a descriptor.
   */
  lemma {:induction false} BundleDictionaries(projectId: int, hash: string, l: LayerInput, code: string)
    requires ValidLayer(l) && CompareLayer(l).Ok?
    ensures var b := BundleFor(projectId, hash, l);
      && b.columns == BaselineColumns(l)
      && (code in SelectedCodes(l) ==> FindParameter(l.parameters, code).Some?)
      && FindParameter(b.selected, code) == if code in SelectedCodes(l) then FindParameter(l.parameters, code) else None
  {
    hide PrepareLayer, ComparePrepared, StoredCodes, Selected, SortBy, FindParameter, WellFormed, StrictlySorted,
         ColumnMap;
    PreparedParts(l);
    var ps, selected, stored := l.parameters, BundleFor(projectId, hash, l).selected, StoredCodes(l.conditions);
    C.SelectedMembers(ps, stored);
    SortProps(Selected(ps, stored), ParameterOrder);
    FindParameterMember(ps, code);
    FindParameterMember(selected, code);
    forall q | q in selected && q.code == code ensures FindParameter(ps, code) == Some(q) {
      C.FindParameterAt(ps, IndexOf(ps, q));
    }
    if code in C.ActiveCodes(ps) {
      var i :| 0 <= i < |ps| && ps[i].active && ps[i].code == code;
      C.FindParameterAt(ps, i);
    }
    if code in SelectedCodes(l) {
      var p := FindParameter(ps, code).value;
      assert p in selected;
      var k := IndexOf(selected, p);
    }
    if FindParameter(selected, code).Some? {
      var q := FindParameter(selected, code).value;
      var k := IndexOf(ps, q);
    }
  }

  // ---------------------------------------------------------------- the two predicates agree

  /** Every row's cells have the descriptor their classification calls for. */
  predicate RowsHaveAuthority(b: Bundle, rows: seq<Row>) {
    forall i :: 0 <= i < |rows| ==> RowAuthority(b.columns, b.selected, rows[i])
  }

  lemma {:induction false} ComparedAuthority(projectId: int, hash: string, l: LayerInput)
    requires CompareLayer(l).Ok?
    ensures RowsHaveAuthority(BundleFor(projectId, hash, l), CompareLayer(l).value.rows)
  {
    hide PrepareLayer, RowAuthority, StrictlySorted, OrdersAgree;
    if l.baseline.Some? {
      ComparedFacts(l);
      var p, rows := PrepareLayer(l).value, CompareLayer(l).value.rows;
      forall i | 0 <= i < |rows| ensures RowAuthority(p.columns, p.selected,
        rows[i]) { assert RowFacts(p.columns, p.selected, rows[i]); }
    } else {
      UnavailableHasNoRows(l);
    }
  }

  lemma {:induction false} UnavailableHasNoRows(l: LayerInput)
    requires CompareLayer(l).Ok? && l.baseline.None?
    ensures CompareLayer(l).value.rows == []
  {
    hide SelectParameters, PlanOf, PrepareConditions, StoredCodes;
    PreparedPlanComplete(l);
    PreparedParts(l);
  }

  /** Filters decide a cell alike in the root view and in the drill-down, and no lookup fails. */
  lemma {:induction false} PredicatesAgree(b: Bundle, row: Row, i: nat, f: T.Filters)
    requires RowAuthority(b.columns, b.selected, row) && i < |row.cells|
    ensures RootMatches(b, row, row.cells[i], f) == DrillMatches(b, row.cells[i], f)
    ensures DrillMatches(b, row.cells[i], f).Ok?
  {
    hide PassesPlainFilters, FindParameter;
    assert CellAuthority(b.columns, b.selected, row.cells[i]);
  }

  /** The values of every cell that passes the filters are short enough to be shown. */
  predicate ShownCellsPublic(b: Bundle, cells: seq<CellChange>, f: T.Filters) {
    forall i :: 0 <= i < |cells| && DrillMatches(b, cells[i], f) == Ok(true) ==> PublicCell(cells[i])
  }

  lemma {:induction false} ShownNext(b: Bundle, cells: seq<CellChange>, f: T.Filters)
    requires |cells| > 0
    ensures var n := |cells| - 1;
      ShownCellsPublic(b, cells, f) <==>
        ShownCellsPublic(b, cells[..n], f) && (DrillMatches(b, cells[n], f) == Ok(true) ==> PublicCell(cells[n]))
  {
    hide DrillMatches, PublicCell;
    var n := |cells| - 1;
    if ShownCellsPublic(b, cells[..n], f) && (DrillMatches(b, cells[n], f) == Ok(true) ==> PublicCell(cells[n])) {
      forall i | 0 <= i < |cells| && DrillMatches(b, cells[i], f) == Ok(true) ensures PublicCell(cells[i]) {
        if i < n { assert cells[..n][i] == cells[i]; }
      }
    }
    if ShownCellsPublic(b, cells, f) {
      forall i | 0 <= i < n && DrillMatches(b, cells[..n][i], f) == Ok(true) ensures PublicCell(cells[..n][i]) {
        assert cells[..n][i] == cells[i];
      }
    }
  }

  /** A row's cell items exist unless a shown value is too long, and are as many as its cell previews. */
  lemma {:induction false} ItemsAndPreviews(b: Bundle, row: Row, f: T.Filters, n: nat)
    requires RowAuthority(b.columns, b.selected, row) && n <= |row.cells|
    ensures CellPreviews(b, row, row.cells[..n], f, false).Ok?
    ensures CellItems(b, row.status, row.cells[..n], f) == Err(ValueTooLong)
      || CellItems(b, row.status, row.cells[..n], f).Ok?
    ensures CellItems(b, row.status, row.cells[..n], f).Ok? <==> ShownCellsPublic(b, row.cells[..n], f)
    ensures CellItems(b, row.status, row.cells[..n], f).Ok? ==>
      |CellItems(b, row.status, row.cells[..n], f).value| == |CellPreviews(b, row, row.cells[..n], f, false).value|
    decreases n
  {
    hide RootMatches, DrillMatches, PublicCell, RowAuthority, RowRefFor, ShownCellsPublic, CellPreviewOf;
    if n > 0 {
      ItemsAndPreviews(b, row, f, n - 1);
      PredicatesAgree(b, row, n - 1, f);
      CellItemsNext(b, row.status, row.cells, f, n - 1);
      CellPreviewsNext(b, row, f, false, n - 1);
      ShownNext(b, row.cells[..n], f);
      assert row.cells[..n][..n - 1] == row.cells[..n - 1];
      hide CellItems, CellPreviews;
    } else {
      NothingShown(b, row.cells, f);
    }
  }

  lemma {:induction false} NothingShown(b: Bundle, cells: seq<CellChange>, f: T.Filters)
    ensures ShownCellsPublic(b, cells[..0], f)
  {
  }

  /** Blocked, the first visible cell fails; without one nothing is built. */
  lemma {:induction false} BlockedCells(b: Bundle, row: Row, f: T.Filters, n: nat)
    requires RowAuthority(b.columns, b.selected, row) && n <= |row.cells|
    ensures var free := CellPreviews(b, row, row.cells[..n], f, false);
      free.Ok? && CellPreviews(b, row, row.cells[..n], f, true) == if free.value == [] then Ok([])
        else Err(ResponseInvalid)
    decreases n
  {
    hide RootMatches, RowAuthority, RowRefFor, CellPreviewOf;
    if n > 0 {
      BlockedCells(b, row, f, n - 1);
      PredicatesAgree(b, row, n - 1, f);
      CellPreviewsNext(b, row, f, false, n - 1);
      CellPreviewsNext(b, row, f, true, n - 1);
      hide CellPreviews, DrillMatches;
    } else {
      NoCellPreviews(b, row, f, false);
      NoCellPreviews(b, row, f, true);
    }
  }

  /** The row is listed by the drill-down and counted by the root view. */
  predicate RowListed(b: Bundle, row: Row, f: T.Filters) { RowPreviews(b, row, f, false) != Ok([]) }

  /** What the root view counts for a row and what the drill-down lists for it. */
  lemma {:induction false} RowAgrees(b: Bundle, row: Row, f: T.Filters)
    requires RowAuthority(b.columns, b.selected, row)
    ensures RowPreviews(b, row, f, false).Ok?
    ensures RowPreviews(b, row, f, true) == if RowListed(b, row, f) then Err(ResponseInvalid) else Ok([])
    ensures CellItems(b, row.status, row.cells, f).Ok? <==> ShownCellsPublic(b, row.cells, f)
    ensures CellItems(b, row.status, row.cells, f).Err? ==> CellItems(b, row.status, row.cells, f) == Err(ValueTooLong)
    ensures CellItems(b, row.status, row.cells, f).Ok? ==>
      var items := CellItems(b, row.status, row.cells, f).value;
      && CellCount(RowPreviews(b, row, f, false).value) == |items|
      && (RowListed(b, row, f) <==> |items| > 0 || MetadataVisible(row, f))
  {
    hide CellItems, CellPreviews, RowAuthority, ShownCellsPublic, SortBy, RowRefFor, FieldKey, MetadataMatches,
         CellCount;
    ItemsAndPreviews(b, row, f, |row.cells|);
    BlockedCells(b, row, f, |row.cells|);
    assert row.cells[..|row.cells|] == row.cells;
    SortProps(row.metadataChanges, FieldKey);
    RowCellCount(b, row, f, false);
  }

  function ListedCells(items: seq<ConditionItem>): nat {
    if |items| == 0 then 0 else ListedCells(items[..|items| - 1]) + items[|items| - 1].filteredCellCount
  }

  predicate AllShownPublic(b: Bundle, rows: seq<Row>, f: T.Filters) {
    forall i :: 0 <= i < |rows| ==> ShownCellsPublic(b, rows[i].cells, f)
  }

  /** The tokens of every listed row are short enough for a response. */
  predicate AllTokensShort(b: Bundle, rows: seq<Row>, f: T.Filters) {
    forall i :: 0 <= i < |rows| ==> RowListed(b, rows[i], f) ==> RowTokensShort(b, rows[i], f)
  }

  lemma {:induction false} ListedAppend(items: seq<ConditionItem>, x: ConditionItem)
    ensures ListedCells(items + [x]) == ListedCells(items) + x.filteredCellCount
  {
    assert (items + [x])[..|items|] == items;
  }

  lemma {:induction false} ShownRowsNext(b: Bundle, rows: seq<Row>, f: T.Filters)
    requires |rows| > 0
    ensures var n := |rows| - 1; AllShownPublic(b, rows, f) <==>
      AllShownPublic(b, rows[..n], f) && ShownCellsPublic(b, rows[n].cells, f)
  {
    hide ShownCellsPublic;
    var n := |rows| - 1;
    if AllShownPublic(b, rows[..n], f) && ShownCellsPublic(b, rows[n].cells, f) {
      forall i | 0 <= i < |rows| ensures ShownCellsPublic(b, rows[i].cells, f) {
        if i < n { assert rows[..n][i] == rows[i]; }
      }
    }
    if AllShownPublic(b, rows, f) {
      forall i | 0 <= i < n ensures ShownCellsPublic(b, rows[..n][i].cells, f) { assert rows[..n][i] == rows[i]; }
    }
  }

  lemma {:induction false} ShortRowsNext(b: Bundle, rows: seq<Row>, f: T.Filters)
    requires |rows| > 0
    ensures var n := |rows| - 1;
      AllTokensShort(b, rows, f) <==>
        AllTokensShort(b, rows[..n], f) && (RowListed(b, rows[n], f) ==> RowTokensShort(b, rows[n], f))
  {
    hide RowListed, RowTokensShort;
    var n := |rows| - 1;
    if AllTokensShort(b, rows[..n], f) && (RowListed(b, rows[n], f) ==> RowTokensShort(b, rows[n], f)) {
      forall i | 0 <= i < |rows| ensures RowListed(b, rows[i], f) ==> RowTokensShort(b, rows[i], f) {
        if i < n { assert rows[..n][i] == rows[i]; }
      }
    }
    if AllTokensShort(b, rows, f) {
      forall i | 0 <= i < n ensures RowListed(b, rows[..n][i], f) ==> RowTokensShort(b, rows[..n][i], f) {
        assert rows[..n][i] == rows[i];
      }
    }
  }

  /** When the drill-down of the first rows fails, and why. */
  lemma {:induction false} DrillDownFails(b: Bundle, rows: seq<Row>, f: T.Filters)
    requires RowsHaveAuthority(b, rows)
    ensures BranchRows(b, rows, f).Ok? <==> AllShownPublic(b, rows, f) && AllTokensShort(b, rows, f)
    ensures BranchRows(b, rows, f).Err? ==>
      || (BranchRows(b, rows, f).error == ValueTooLong && !AllShownPublic(b, rows, f))
      || (BranchRows(b, rows, f).error == ResponseInvalid && !AllTokensShort(b, rows, f))
  {
    hide RowAuthority, CellItems, ShownCellsPublic, MetadataVisible, AllShownPublic, AllTokensShort, RowListed,
         RowTokensShort, ConditionItemOf, BranchRows;
    var n := |rows| - 1;
    if n >= 0 {
      DrillDownFails(b, rows[..n], f);
      RowAgrees(b, rows[n], f);
      assert rows[..n + 1] == rows;
      BranchRowsNext(b, rows, f, n);
      ShownRowsNext(b, rows, f);
      ShortRowsNext(b, rows, f);
    } else {
      assert rows[..0] == rows;
      NoBranchRows(b, rows, f);
      NothingListed(b, f);
    }
  }

  /** The counts of the root view against the items of the drill-down, for the first rows. */
  lemma {:induction false} LayerAgrees(b: Bundle, rows: seq<Row>, f: T.Filters, room: nat)
    requires RowsHaveAuthority(b, rows) && BranchRows(b, rows, f).Ok?
    ensures LayerTally(b, rows, f, room).Ok?
    ensures LayerTally(b, rows, f, room).value.rows == |BranchRows(b, rows, f).value|
    ensures LayerTally(b, rows, f, room).value.cells == ListedCells(BranchRows(b, rows, f).value)
  {
    hide RowAuthority, RowPreviews, CellItems, ShownCellsPublic, MetadataVisible, CellCount, ListedCells,
         ConditionItemOf, BranchRows, LayerTally, RowTokensShort;
    var n := |rows| - 1;
    if n >= 0 {
      assert rows[..n + 1] == rows;
      BranchRowsNext(b, rows, f, n);
      LayerAgrees(b, rows[..n], f, room);
      RowAgrees(b, rows[n], f);
      LayerTallyNext(b, rows, f, room, n);
      var count := |CellItems(b, rows[n].status, rows[n].cells, f).value|;
      ItemCount(b, rows[n], f, count);
      ListedAppend(BranchRows(b, rows[..n], f).value, ConditionItemOf(b, rows[n], f, count));
    } else {
      assert rows[..0] == rows;
      NoBranchRows(b, rows, f);
      NoTally(b, rows, f, room);
      NothingListed(b, f);
    }
  }

  /** The root view of a layer fails only over tokens of previews it has room for. */
  lemma {:induction false} TallyFails(b: Bundle, rows: seq<Row>, f: T.Filters, room: nat)
    requires RowsHaveAuthority(b, rows) && LayerTally(b, rows, f, room).Err?
    ensures LayerTally(b, rows, f, room).error == ResponseInvalid && room > 0 && !AllTokensShort(b, rows, f)
  {
    hide RowAuthority, RowPreviews, CellCount, LayerTally, RowTokensShort, RowListed, AllTokensShort;
    var n := |rows| - 1;
    if n >= 0 {
      assert rows[..n + 1] == rows;
      RowAgrees(b, rows[n], f);
      LayerTallyNext(b, rows, f, room, n);
      ShortRowsNext(b, rows, f);
      if LayerTally(b, rows[..n], f, room).Err? { TallyFails(b, rows[..n], f, room); }
    } else {
      assert rows[..0] == rows;
      NoTally(b, rows, f, room);
      assert false;
    }
  }

  lemma {:induction false} ItemCount(b: Bundle, row: Row, f: T.Filters, count: nat)
    ensures ConditionItemOf(b, row, f, count).filteredCellCount == count
  {
    hide HasChange;
  }

  lemma {:induction false} NothingListed(b: Bundle, f: T.Filters)
    ensures ListedCells([]) == 0 && AllShownPublic(b, [], f) && AllTokensShort(b, [], f)
  {
  }

  /**
   * For every filter the root view agrees with the drill-down: the layer's row count is the number
   * of condition items, its cell count the sum of their filtered cell counts. The drill-down fails
   * exactly when a shown value exceeds the public length or a token of a listed row the token
   * length; the root view only when it has room for a preview of such a row.
   */
  lemma {:induction false} RootAgreesWithDrillDown(projectId: int, hash: string, l: LayerInput, f: T.Filters, room: nat)
    requires CompareLayer(l).Ok?
    ensures var b := BundleFor(projectId, hash, l);
      var rows := b.result.rows;
      var listed, tally := BranchRows(b, rows, f), LayerTally(b, rows, f, room);
      && (listed.Ok? <==> AllShownPublic(b, rows, f) && AllTokensShort(b, rows, f))
      && (listed.Err? ==>
        (listed.error == ValueTooLong && !AllShownPublic(b, rows, f))
          || (listed.error == ResponseInvalid && !AllTokensShort(b, rows, f)))
      && (tally.Err? ==> tally.error == ResponseInvalid && room > 0 && !AllTokensShort(b, rows, f))
      && (listed.Ok? ==>
        tally.Ok? && tally.value.rows == |listed.value| && tally.value.cells == ListedCells(listed.value))
  {
    hide CompareLayer, PrepareLayer, LayerTally, BranchRows, AllShownPublic, AllTokensShort, RowsHaveAuthority,
         ListedCells;
    var b := BundleFor(projectId, hash, l);
    var rows := b.result.rows;
    ComparedAuthority(projectId, hash, l);
    DrillDownFails(b, rows, f);
    if BranchRows(b, rows, f).Ok? { LayerAgrees(b, rows, f, room); }
    if LayerTally(b, rows, f, room).Err? { TallyFails(b, rows, f, room); }
  }

  // ---------------------------------------------------------------- references name rows

  /** Two rows of a comparison never share a reference. */
  lemma {:induction false} RowRefsDistinct(l: LayerInput, projectId: int, layerKey: string, i: nat, j: nat)
    requires CompareLayer(l).Ok? && DistinctIds(l.conditions)
    requires (l.baseline.Some? ==> DistinctConditions(l.baseline.value.conditions))
    requires i < |CompareLayer(l).value.rows| && j < |CompareLayer(l).value.rows| && i != j
    ensures RowRefFor(projectId, layerKey, CompareLayer(l).value.rows[i]) != RowRefFor(projectId, layerKey,
      CompareLayer(l).value.rows[j])
  {
    hide PrepareLayer, ComparePrepared, IdentityKey, ProjectCurrent, ProjectBaseline;
    RowsIdentified(l);
    var rows := CompareLayer(l).value.rows;
    assert IdentityKey(rows[i]) != IdentityKey(rows[j]);
    assert IdentifiedByIds(rows[i]) && IdentifiedByIds(rows[j]);
    RefsApart(projectId, layerKey, rows[i], rows[j]);
  }

  /** A row's identity is the id its reference carries. */
  predicate IdentifiedByIds(r: Row) {
    if r.status == Removed then r.baselineSourceId == Some(r.identity) else r.currentId == Some(r.identity)
  }

  lemma {:induction false} RefsApart(projectId: int, layerKey: string, a: Row, b: Row)
    requires IdentifiedByIds(a) && IdentifiedByIds(b) && IdentityKey(a) != IdentityKey(b)
    ensures RowRefFor(projectId, layerKey, a) != RowRefFor(projectId, layerKey, b)
  {
    assert "matched" != "added" && "matched" != "removed" && "added" != "removed";
  }

  lemma {:induction false} BaselineRowsIdentified(key: string, plan: Plan, bs: seq<Condition>,
      cs: seq<PreparedCondition>)
    requires PlanComplete(plan)
    ensures forall i :: 0 <= i < |BaselineRows(key, plan, bs, cs)| ==>
      IdentifiedByIds(BaselineRows(key, plan, bs, cs)[i])
  {
    hide PlanComplete, Descendants, SortBy, MatchedCells, AddedCells, RemovedCells;
    if |bs| > 0 { BaselineRowsIdentified(key, plan, bs[..|bs| - 1], cs); }
  }

  lemma {:induction false} RowsIdentified(l: LayerInput)
    requires CompareLayer(l).Ok? && DistinctIds(l.conditions)
    requires (l.baseline.Some? ==> DistinctConditions(l.baseline.value.conditions))
    ensures DistinctKeys(CompareLayer(l).value.rows, IdentityKey)
    ensures forall i :: 0 <= i < |CompareLayer(l).value.rows| ==> IdentifiedByIds(CompareLayer(l).value.rows[i])
  {
    hide PrepareLayer, BaselineRows, PlanComplete, SortBy, BuildPlan, AmbiguousCount, Counted, Unmatched, KeyLess,
         Sorted, StrictlySorted, IdentityKey, IdentifiedByIds, AddedRow;
    PreparedPlanComplete(l);
    PreparedParts(l);
    if l.baseline.Some? {
      var p, bs := PrepareLayer(l).value, l.baseline.value.conditions;
      var all := AllRows(l.layerKey, p.plan, bs, p.conditions);
      AllIdentities(l.layerKey, p.plan, bs, p.conditions);
      BaselineRowsIdentified(l.layerKey, p.plan, bs, p.conditions);
      AddedIdentified(l.layerKey, p.plan, Unmatched(p.conditions, SourceIds(bs)));
      SortProps(all, RowOrder);
      var rows := SortBy(all, RowOrder);
      DistinctKeysOfPermutation(all, rows, IdentityKey);
      forall i | 0 <= i < |rows| ensures IdentifiedByIds(rows[i]) {
        MemberOfPermutation(all, rows, i);
        var k := IndexOf(all, rows[i]);
      }
    }
  }

  lemma {:induction false} AddedIdentified(key: string, plan: Plan, cs: seq<PreparedCondition>)
    requires PlanComplete(plan)
    ensures forall i :: 0 <= i < |AddedRows(key, plan, cs)| ==> IdentifiedByIds(AddedRows(key, plan, cs)[i])
  {
    hide PlanComplete, AddedCells;
  }
}
