/**
 * Counters and orders of a comparison (backend/app/domain/backbone/diff.py): the cell counters
 * add up to the compared coordinates, rows are strictly sorted, and so are the cells of matched
 * and added rows. Cells of removed rows are sorted exactly when two column orders agree.
 */
module DiffOrders {
  import opened Results
  import opened Ordering
  import opened BaselineSnapshot
  import opened BackboneDiff
  import opened DiffEngine
  import opened DiffLaws
  import V = Validation

  // ---------------------------------------------------------------- facts about each row

  /** The baseline columns come in the same relative order by their own and by the shown sort order. */
  ghost predicate OrdersAgree(columns: map<string, Column>, selected: seq<CurrentParameter>) {
    forall a, b :: a in columns && b in columns && KeyLess(BaselineOrder(columns)(a), BaselineOrder(columns)(b))
      ==> KeyLess(CoordinateOrder(columns, selected)(a), CoordinateOrder(columns, selected)(b))
  }

  /** A cell shows its order; one classified as removed has a baseline column, any other one a selected parameter. */
  predicate CellAuthority(columns: map<string, Column>, selected: seq<CurrentParameter>, c: CellChange) {
    && c.sortOrder == ShownOrder(columns, selected, c.code)
    && (c.classification == RemovedCell <==> c.reason == ColumnRemoved || c.reason == RowRemoved)
    && (if c.classification == RemovedCell then c.code in columns else FindParameter(selected, c.code).Some?)
  }

  predicate RowAuthority(columns: map<string, Column>, selected: seq<CurrentParameter>, r: Row) {
    && (forall i :: 0 <= i < |r.cells| ==> CellAuthority(columns, selected, r.cells[i]))
    && (r.status == Removed ==> forall i :: 0 <= i < |r.cells| ==> r.cells[i].classification == RemovedCell)
  }

  ghost predicate RowFacts(columns: map<string, Column>, selected: seq<CurrentParameter>, r: Row) {
    && RowAuthority(columns, selected, r)
    && match r.status
    case Matched =>
      && |r.cells| == |columns.Keys + ParameterCodes(selected)| && StrictlySorted(r.cells, CellOrder)
      && ProjectCurrent(r).Some? && ProjectBaseline(r).Some?
    case Added =>
      && |r.cells| == |ParameterCodes(selected)| && StrictlySorted(r.cells, CellOrder)
      && ProjectCurrent(r).Some? && ProjectBaseline(r).None?
    case Removed =>
      && |r.cells| == |columns.Keys| && (StrictlySorted(r.cells, CellOrder) <==> OrdersAgree(columns, selected))
      && ProjectCurrent(r).None? && ProjectBaseline(r).Some?
  }

  lemma {:induction false} CellOrderIs(columns: map<string, Column>, selected: seq<CurrentParameter>, c: CellChange)
    requires c.sortOrder == ShownOrder(columns, selected, c.code)
    ensures CellOrder(c) == CoordinateOrder(columns, selected)(c.code)
  {
    hide ShownOrder;
  }

  lemma {:induction false} SortedLikeCodes(columns: map<string, Column>, selected: seq<CurrentParameter>,
      cells: seq<CellChange>, codes: seq<string>)
    requires |cells| == |codes| && forall i :: 0 <= i < |cells| ==>
      cells[i].code == codes[i] && cells[i].sortOrder == ShownOrder(columns, selected, codes[i])
    ensures StrictlySorted(cells, CellOrder) <==> StrictlySorted(codes, CoordinateOrder(columns, selected))
  {
    hide ShownOrder, KeyLess, CellOrder, CoordinateOrder;
    forall i | 0 <= i < |cells| ensures CellOrder(cells[i]) == CoordinateOrder(columns, selected)(codes[i]) {
      CellOrderIs(columns, selected, cells[i]);
    }
    if StrictlySorted(cells, CellOrder) {
      forall i, j | 0 <= i < j < |codes|
        ensures KeyLess(CoordinateOrder(columns, selected)(codes[i]), CoordinateOrder(columns, selected)(codes[j])) {
        assert KeyLess(CellOrder(cells[i]), CellOrder(cells[j]));
      }
    }
    if StrictlySorted(codes, CoordinateOrder(columns, selected)) {
      forall i, j | 0 <= i < j < |cells| ensures KeyLess(CellOrder(cells[i]), CellOrder(cells[j])) {
        assert KeyLess(CoordinateOrder(columns, selected)(codes[i]), CoordinateOrder(columns, selected)(codes[j]));
      }
    }
  }

  lemma {:induction false} MatchedLikeCodes(columns: map<string, Column>, selected: seq<CurrentParameter>,
      b: Condition, c: PreparedCondition, i: nat)
    requires i < |BuildPlan(columns, selected).codes|
    ensures PlanComplete(BuildPlan(columns, selected))
    ensures var code := BuildPlan(columns, selected).codes[i];
      var cell := MatchedCells(BuildPlan(columns, selected), b, c)[i];
      cell.code == code && cell.sortOrder == ShownOrder(columns, selected, code)
  {
    hide BuildPlan, CompareCoordinate, BaselineValue, CurrentValue, StrictlySorted, Distinct', ShownOrder,
         ParameterCodes, PlanCoordinate;
    PlanLists(columns, selected);
    var code := BuildPlan(columns, selected).codes[i];
    CoordinateSorted(columns, selected, code, BaselineValue(b, code), CurrentValue(c, code));
  }

  lemma {:induction false} MatchedFacts(key: string, columns: map<string, Column>, selected: seq<CurrentParameter>,
      b: Condition, c: PreparedCondition)
    requires c.condition.sourceId == Some(b.sourceId)
    ensures PlanComplete(BuildPlan(columns, selected))
    ensures RowFacts(columns, selected, MatchedRow(key, BuildPlan(columns, selected), b, c))
  {
    hide BuildPlan, CompareCoordinate, BaselineValue, CurrentValue, CurrentSide, BaselineSide, StrictlySorted,
         Distinct', ShownOrder, ParameterCodes, BaselineOrder, CoordinateOrder, CellOrder, PlanCoordinate, Planned;
    PlanLists(columns, selected);
    var plan := BuildPlan(columns, selected);
    var cells := MatchedCells(plan, b, c);
    forall i: nat | i < |cells|
      ensures cells[i].code == plan.codes[i] && cells[i].sortOrder == ShownOrder(columns, selected, plan.codes[i]) {
      MatchedLikeCodes(columns, selected, b, c, i);
    }
    SortedLikeCodes(columns, selected, cells, plan.codes);
    MatchedAuthority(key, columns, selected, b, c);
    hide RowAuthority;
  }

  lemma {:induction false} MatchedAuthority(key: string, columns: map<string, Column>, selected: seq<CurrentParameter>,
      b: Condition, c: PreparedCondition)
    ensures PlanComplete(BuildPlan(columns, selected))
    ensures RowAuthority(columns, selected, MatchedRow(key, BuildPlan(columns, selected), b, c))
  {
    hide BuildPlan, CompareCoordinate, BaselineValue, CurrentValue, StrictlySorted, Distinct', ShownOrder,
         ParameterCodes, CellAuthority, FindParameter, MetadataChanges;
    PlanLists(columns, selected);
    var plan := BuildPlan(columns, selected);
    var cells := MatchedCells(plan, b, c);
    forall i | 0 <= i < |cells| ensures CellAuthority(columns, selected, cells[i]) {
      assert plan.codes[i] in plan.codes;
      FindParameterMember(selected, plan.codes[i]);
      CoordinateAuthority(columns, selected, plan.codes[i], BaselineValue(b, plan.codes[i]),
        CurrentValue(c, plan.codes[i]));
    }
  }

  lemma {:induction false} CoordinateAuthority(columns: map<string, Column>, selected: seq<CurrentParameter>,
      code: string, was: Option<string>, now: Option<string>)
    requires code in columns || FindParameter(selected, code).Some?
    ensures CellAuthority(columns, selected, CompareCoordinate(PlanCoordinate(columns, selected, code), was, now))
  {
    hide FindParameter, ShownOrder;
  }

  lemma {:induction false} ShownAt(columns: map<string, Column>, selected: seq<CurrentParameter>, code: string)
    requires code in BuildPlan(columns, selected).coordinates
    ensures BuildPlan(columns, selected).coordinates[code].sortOrder == ShownOrder(columns, selected, code)
  {
    hide SortBy, SortedTexts, ShownOrder, ParameterCodes, FindParameter;
  }

  lemma {:induction false} AddedAuthority(key: string, columns: map<string, Column>, selected: seq<CurrentParameter>,
      c: PreparedCondition)
    ensures PlanComplete(BuildPlan(columns, selected))
    ensures RowAuthority(columns, selected, AddedRow(key, BuildPlan(columns, selected), c))
  {
    hide BuildPlan, CurrentValue, StrictlySorted, Distinct', PlanCoordinate, ParameterCodes, FindParameter, ShownOrder;
    PlanLists(columns, selected);
    var plan := BuildPlan(columns, selected);
    var cells := AddedCells(plan, c);
    forall i | 0 <= i < |cells| ensures CellAuthority(columns, selected, cells[i]) {
      assert plan.addedCodes[i] in plan.addedCodes;
      FindParameterMember(selected, plan.addedCodes[i]);
      ShownAt(columns, selected, plan.addedCodes[i]);
    }
    hide CellAuthority;
  }

  lemma {:induction false} RemovedAuthority(key: string, columns: map<string, Column>, selected: seq<CurrentParameter>,
      b: Condition)
    ensures PlanComplete(BuildPlan(columns, selected))
    ensures RowAuthority(columns, selected, RemovedRow(key, BuildPlan(columns, selected), b))
  {
    hide BuildPlan, BaselineValue, StrictlySorted, Distinct', PlanCoordinate, ParameterCodes, FindParameter, ShownOrder;
    PlanLists(columns, selected);
    var plan := BuildPlan(columns, selected);
    var cells := RemovedCells(plan, b);
    forall i | 0 <= i < |cells|
      ensures CellAuthority(columns, selected, cells[i]) && cells[i].classification == RemovedCell {
      assert plan.removedCodes[i] in plan.removedCodes;
      ShownAt(columns, selected, plan.removedCodes[i]);
    }
    hide CellAuthority;
  }

  lemma {:induction false} CoordinateSorted(columns: map<string, Column>, selected: seq<CurrentParameter>,
      code: string, was: Option<string>, now: Option<string>)
    ensures var c := CompareCoordinate(PlanCoordinate(columns, selected, code), was, now);
      c.code == code && c.sortOrder == ShownOrder(columns, selected, code)
  {
    hide ShownOrder;
  }

  lemma {:induction false} AddedFacts(key: string, columns: map<string, Column>, selected: seq<CurrentParameter>,
      c: PreparedCondition)
    ensures PlanComplete(BuildPlan(columns, selected))
    ensures RowFacts(columns, selected, AddedRow(key, BuildPlan(columns, selected), c))
  {
    hide BuildPlan, CurrentValue, CurrentSide, BaselineSide, StrictlySorted, Distinct', ShownOrder, ParameterCodes,
         BaselineOrder, CoordinateOrder, CellOrder;
    var plan := BuildPlan(columns, selected);
    PlanLists(columns, selected);
    SortedLikeCodes(columns, selected, AddedCells(plan, c), plan.addedCodes);
    AddedAuthority(key, columns, selected, c);
    hide RowAuthority;
  }

  lemma {:induction false} RemovedFacts(key: string, columns: map<string, Column>, selected: seq<CurrentParameter>,
      b: Condition)
    ensures PlanComplete(BuildPlan(columns, selected))
    ensures RowFacts(columns, selected, RemovedRow(key, BuildPlan(columns, selected), b))
  {
    hide BuildPlan, BaselineValue, CurrentSide, BaselineSide, StrictlySorted, Distinct', ShownOrder, ParameterCodes,
         BaselineOrder, CoordinateOrder, CellOrder, OrdersAgree;
    var plan := BuildPlan(columns, selected);
    PlanLists(columns, selected);
    SortedLikeCodes(columns, selected, RemovedCells(plan, b), plan.removedCodes);
    RemovedOrder(columns, selected, plan.removedCodes);
    RemovedAuthority(key, columns, selected, b);
    hide RowAuthority;
  }

  lemma {:induction false} PositionsFollowKeys(codes: seq<string>, key: string -> Key, i: nat, j: nat)
    requires StrictlySorted(codes, key) && i < |codes| && j < |codes| && KeyLess(key(codes[i]), key(codes[j]))
    ensures i < j
  {
    hide KeyLess;
    KeyTotal(key(codes[i]), key(codes[j]));
    KeyTotal(key(codes[i]), key(codes[i]));
  }

  /** Codes sorted by baseline order are sorted by shown order exactly when the orders agree. */
  lemma {:induction false} RemovedOrder(columns: map<string, Column>, selected: seq<CurrentParameter>,
      codes: seq<string>)
    requires StrictlySorted(codes, BaselineOrder(columns)) && forall c :: c in codes <==> c in columns
    ensures StrictlySorted(codes, CoordinateOrder(columns, selected)) <==> OrdersAgree(columns, selected)
  {
    hide KeyLess, BaselineOrder, CoordinateOrder;
    if StrictlySorted(codes, CoordinateOrder(columns, selected)) {
      forall a, b | a in columns && b in columns && KeyLess(BaselineOrder(columns)(a), BaselineOrder(columns)(b))
        ensures KeyLess(CoordinateOrder(columns, selected)(a), CoordinateOrder(columns, selected)(b))
      {
        assert a in codes && b in codes;
        var i, j := IndexOf(codes, a), IndexOf(codes, b);
        PositionsFollowKeys(codes, BaselineOrder(columns), i, j);
        assert KeyLess(CoordinateOrder(columns, selected)(codes[i]), CoordinateOrder(columns, selected)(codes[j]));
      }
    }
    if OrdersAgree(columns, selected) {
      forall i, j | 0 <= i < j < |codes|
        ensures KeyLess(CoordinateOrder(columns, selected)(codes[i]), CoordinateOrder(columns, selected)(codes[j])) {
        assert codes[i] in codes && codes[j] in codes;
      }
    }
  }

  ghost predicate AllFacts(columns: map<string, Column>, selected: seq<CurrentParameter>, rows: seq<Row>) {
    forall i :: 0 <= i < |rows| ==> RowFacts(columns, selected, rows[i])
  }

  lemma {:induction false} FactsConcat(columns: map<string, Column>, selected: seq<CurrentParameter>, a: seq<Row>,
      b: seq<Row>)
    requires AllFacts(columns, selected, a) && AllFacts(columns, selected, b)
    ensures AllFacts(columns, selected, a + b)
  {
    hide RowFacts;
  }

  lemma {:induction false} AddedRowsFacts(key: string, columns: map<string, Column>, selected: seq<CurrentParameter>,
      cs: seq<PreparedCondition>)
    ensures PlanComplete(BuildPlan(columns, selected))
    ensures AllFacts(columns, selected, AddedRows(key, BuildPlan(columns, selected), cs))
  {
    hide RowFacts, BuildPlan, AddedRow, PlanComplete;
    BuiltPlanComplete(columns, selected);
    forall i | 0 <= i < |cs| ensures RowFacts(columns, selected,
      AddedRow(key, BuildPlan(columns, selected), cs[i])) { AddedFacts(key, columns, selected, cs[i]); }
  }

  lemma {:induction false} LineageFacts(key: string, columns: map<string, Column>, selected: seq<CurrentParameter>,
      b: Condition, cs: seq<PreparedCondition>)
    ensures PlanComplete(BuildPlan(columns, selected))
    ensures AllFacts(columns, selected, LineageRows(key, BuildPlan(columns, selected), b, cs))
  {
    hide RowFacts, BuildPlan, AddedRow, MatchedRow, RemovedRow, AddedRows, PlanComplete, SortBy, Descendants, KeyLess,
         Sorted, StrictlySorted;
    BuiltPlanComplete(columns, selected);
    var found := Descendants(cs, b.sourceId);
    var sorted := SortBy(found, PreparedOrder);
    if |sorted| == 0 {
      RemovedFacts(key, columns, selected, b);
    } else {
      SortProps(found, PreparedOrder);
      DescendantsMembers(cs, b.sourceId);
      MemberOfPermutation(found, sorted, 0);
      MatchedFacts(key, columns, selected, b, sorted[0]);
      AddedRowsFacts(key, columns, selected, sorted[1..]);
      FactsConcat(columns, selected, [MatchedRow(key, BuildPlan(columns, selected), b, sorted[0])],
        AddedRows(key, BuildPlan(columns, selected), sorted[1..]));
    }
  }

  lemma {:induction false} BaselineRowsFacts(key: string, columns: map<string, Column>,
      selected: seq<CurrentParameter>, bs: seq<Condition>, cs: seq<PreparedCondition>)
    ensures PlanComplete(BuildPlan(columns, selected))
    ensures AllFacts(columns, selected, BaselineRows(key, BuildPlan(columns, selected), bs, cs))
  {
    hide RowFacts, BuildPlan, LineageRows, PlanComplete;
    BuiltPlanComplete(columns, selected);
    var n := |bs| - 1;
    if n >= 0 {
      BaselineRowsFacts(key, columns, selected, bs[..n], cs);
      LineageFacts(key, columns, selected, bs[n], cs);
      FactsConcat(columns, selected, BaselineRows(key, BuildPlan(columns, selected), bs[..n], cs),
        LineageRows(key, BuildPlan(columns, selected), bs[n], cs));
    }
  }

  /** Every row of a comparison has its shape and cell order. */
  lemma {:induction false} ComparedFacts(l: LayerInput)
    requires PrepareLayer(l).Ok? && l.baseline.Some?
    ensures CompareLayer(l).Ok?
    ensures AllFacts(PrepareLayer(l).value.columns, PrepareLayer(l).value.selected, CompareLayer(l).value.rows)
  {
    hide PrepareLayer, RowFacts, BaselineRows, AddedRows, PlanComplete, SortBy, BuildPlan, AmbiguousCount, Counted,
         Unmatched, KeyLess, Sorted, StrictlySorted;
    PreparedPlanComplete(l);
    PreparedParts(l);
    var p := PrepareLayer(l).value;
    var bs := l.baseline.value.conditions;
    BaselineRowsFacts(l.layerKey, p.columns, p.selected, bs, p.conditions);
    AddedRowsFacts(l.layerKey, p.columns, p.selected, Unmatched(p.conditions, SourceIds(bs)));
    var all := AllRows(l.layerKey, p.plan, bs, p.conditions);
    FactsConcat(p.columns, p.selected, BaselineRows(l.layerKey, p.plan, bs, p.conditions),
      AddedRows(l.layerKey, p.plan, Unmatched(p.conditions, SourceIds(bs))));
    SortProps(all, RowOrder);
    var rows := SortBy(all, RowOrder);
    forall i | 0 <= i < |rows| ensures RowFacts(p.columns, p.selected, rows[i]) {
      MemberOfPermutation(all, rows, i);
      var k := IndexOf(all, rows[i]);
    }
  }

  /**
   * Cells of matched and added rows are listed in strictly ascending order; cells of removed rows
   * are exactly when the baseline and the shown column orders agree.
   */
  lemma {:induction false} CellOrders(l: LayerInput, i: nat)
    requires CompareLayer(l).Ok? && l.baseline.Some? && i < |CompareLayer(l).value.rows|
    ensures var row, p := CompareLayer(l).value.rows[i], PrepareLayer(l).value;
      && (row.status != Removed ==> StrictlySorted(row.cells, CellOrder))
      && (row.status == Removed ==> (StrictlySorted(row.cells, CellOrder) <==> OrdersAgree(p.columns, p.selected)))
  {
    hide PrepareLayer, ComparePrepared, StrictlySorted, OrdersAgree, RowAuthority;
    ComparedFacts(l);
    assert RowFacts(PrepareLayer(l).value.columns, PrepareLayer(l).value.selected, CompareLayer(l).value.rows[i]);
  }

  // ---------------------------------------------------------------- counters

  lemma {:induction false} CellsOfARow(cells: seq<CellChange>)
    ensures CountCells(cells, AddedCell) + CountCells(cells, RemovedCell) + CountCells(cells, ClearedCell)
      + CountCells(cells, ChangedCell) + CountCells(cells, UnchangedCell) == |cells|
  {
    if |cells| > 0 { CellsOfARow(cells[..|cells| - 1]); }
  }

  function TotalCells(rows: seq<Row>): nat {
    if |rows| == 0 then 0 else TotalCells(rows[..|rows| - 1]) + |rows[|rows| - 1].cells|
  }

  lemma {:induction false} KindsAddUp(rows: seq<Row>)
    ensures CountRowCells(rows, AddedCell) + CountRowCells(rows, RemovedCell) + CountRowCells(rows, ClearedCell)
      + CountRowCells(rows, ChangedCell) + CountRowCells(rows, UnchangedCell) == TotalCells(rows)
  {
    hide CountCells;
    if |rows| > 0 {
      KindsAddUp(rows[..|rows| - 1]);
      CellsOfARow(rows[|rows| - 1].cells);
    }
  }

  function Total(matched: nat, added: nat, removed: nat, all: nat, current: nat, baseline: nat): nat {
    matched * all + added * current + removed * baseline
  }

  lemma {:induction false} TotalNext(matched: nat, added: nat, removed: nat, all: nat, current: nat, baseline: nat)
    ensures Total(matched + 1, added, removed, all, current, baseline) ==
      Total(matched, added, removed, all, current, baseline) + all
    ensures Total(matched, added + 1, removed, all, current, baseline) ==
      Total(matched, added, removed, all, current, baseline) + current
    ensures Total(matched, added, removed + 1, all, current, baseline) ==
      Total(matched, added, removed, all, current, baseline) + baseline
  {
    MulNext(matched, all);
    MulNext(added, current);
    MulNext(removed, baseline);
  }

  lemma {:induction false} MulNext(k: nat, n: nat)
    ensures (k + 1) * n == k * n + n
  {
  }

  function Width(s: RowStatus, all: nat, current: nat, baseline: nat): nat {
    match s case Matched => all case Added => current case Removed => baseline
  }

  lemma {:induction false} WidthsAddUp(rows: seq<Row>, all: nat, current: nat, baseline: nat)
    requires forall i :: 0 <= i < |rows| ==> |rows[i].cells| == Width(rows[i].status, all, current, baseline)
    ensures TotalCells(rows) == Total(CountRows(rows, Matched), CountRows(rows, Added), CountRows(rows, Removed), all,
      current, baseline)
  {
    hide Total;
    var n := |rows| - 1;
    if n >= 0 {
      var before := rows[..n];
      WidthsAddUp(before, all, current, baseline);
      TotalNext(CountRows(before, Matched), CountRows(before, Added), CountRows(before, Removed), all, current,
        baseline);
    } else {
      NothingTotal(all, current, baseline);
    }
  }

  lemma {:induction false} NothingTotal(all: nat, current: nat, baseline: nat)
    ensures Total(0, 0, 0, all, current, baseline) == 0
  {
  }

  lemma {:induction false} RowsAddUp(columns: map<string, Column>, selected: seq<CurrentParameter>, rows: seq<Row>)
    requires AllFacts(columns, selected, rows)
    ensures TotalCells(rows) == Total(CountRows(rows, Matched), CountRows(rows, Added), CountRows(rows, Removed),
                                      |columns.Keys + ParameterCodes(selected)|, |ParameterCodes(selected)|,
                                      |columns.Keys|)
  {
    hide RowAuthority, StrictlySorted, OrdersAgree, ProjectCurrent, ProjectBaseline, ParameterCodes, TotalCells,
         CountRows, Total;
    var all, current, baseline := |columns.Keys + ParameterCodes(selected)|, |ParameterCodes(selected)|, |columns.Keys|;
    forall i | 0 <= i < |rows| ensures |rows[i].cells| == Width(rows[i].status, all, current, baseline) {
      assert RowFacts(columns, selected, rows[i]);
    }
    WidthsAddUp(rows, all, current, baseline);
  }

  lemma {:induction false} SidesAddUp(columns: map<string, Column>, selected: seq<CurrentParameter>, rows: seq<Row>)
    requires AllFacts(columns, selected, rows)
    ensures CountRows(rows, Matched) + CountRows(rows, Added) == |Collect(rows, ProjectCurrent)|
    ensures CountRows(rows, Matched) + CountRows(rows, Removed) == |Collect(rows, ProjectBaseline)|
  {
    hide RowAuthority, StrictlySorted, OrdersAgree, ProjectCurrent, ProjectBaseline, ParameterCodes, Collect;
    var n := |rows| - 1;
    if n >= 0 {
      var before, last := rows[..n], rows[n];
      assert RowFacts(columns, selected, last);
      SidesAddUp(columns, selected, before);
      assert rows == before + [last];
      CollectConcat(before, [last], ProjectCurrent);
      CollectConcat(before, [last], ProjectBaseline);
      CollectOne(last, ProjectCurrent);
      CollectOne(last, ProjectBaseline);
    } else {
      NothingCollected();
    }
  }

  lemma {:induction false} NothingCollected()
    ensures Collect([], ProjectCurrent) == [] && Collect([], ProjectBaseline) == []
  {
  }

  lemma {:induction false} BaselineViewCount(universe: set<string>, bs: seq<Condition>)
    ensures |BaselineViews(universe, bs)| == |bs|
  {
    hide BaselineView;
    if |bs| > 0 { BaselineViewCount(universe, bs[..|bs| - 1]); }
  }

  /**
   * The five cell counters count every compared coordinate once, and the row counters count every
   * condition of either side once.
   */
  lemma {:induction false} CountersAddUp(l: LayerInput)
    requires CompareLayer(l).Ok? && l.baseline.Some? && DistinctConditions(l.baseline.value.conditions)
    ensures var p, c := PrepareLayer(l).value, CompareLayer(l).value.counters;
      var b, n := p.columns.Keys, ParameterCodes(p.selected);
      && c.addedCells + c.removedCells + c.clearedCells + c.changedCells + c.unchangedCells ==
        c.matched * |b + n| + c.added * |n| + c.removed * |b|
      && c.matched + c.added == |l.conditions|
      && c.matched + c.removed == |l.baseline.value.conditions|
  {
    hide PrepareLayer, AllFacts, BaselineRows, AddedRows, Collect, CurrentViews, BaselineViews, ParameterCodes, SortBy,
         PlanComplete, Unmatched, BuildPlan, AmbiguousCount, CountRows, CountRowCells, TotalCells, AllRows;
    PreparedPlanComplete(l);
    var p := PrepareLayer(l).value;
    var rows := CompareLayer(l).value.rows;
    PreparedParts(l);
    ComparedFacts(l);
    RowsAddUp(p.columns, p.selected, rows);
    SidesAddUp(p.columns, p.selected, rows);
    KindsAddUp(rows);
    RowsLoseNothing(l);
    BaselineViewCount(p.columns.Keys, l.baseline.value.conditions);
    assert |Collect(rows, ProjectCurrent)| == |multiset(Collect(rows, ProjectCurrent))|;
    assert |Collect(rows, ProjectBaseline)| == |multiset(Collect(rows, ProjectBaseline))|;
    assert CompareLayer(l).value.counters == Counted(rows);
  }

  // ---------------------------------------------------------------- rows are strictly sorted

  function IdentityKey(r: Row): Key { [Num(if r.status == Removed then 1 else 0), Num(r.identity)] }

  /** The rows belong to the given baseline conditions: removed ones by source id, others by a derived current id. */
  ghost predicate RowsOf(rows: seq<Row>, sources: set<int>, cs: seq<PreparedCondition>) {
    forall i :: 0 <= i < |rows| ==>
      if rows[i].status == Removed then rows[i].identity in sources
      else exists k :: 0 <= k < |cs| && cs[k].condition.id == rows[i].identity && Derived(cs[k].condition, sources)
  }

  lemma {:induction false} LineageIdentities(key: string, plan: Plan, b: Condition, cs: seq<PreparedCondition>)
    requires PlanComplete(plan) && DistinctPrepared(cs)
    ensures var rows := LineageRows(key, plan, b, cs); RowsOf(rows, {b.sourceId}, cs) && DistinctKeys(rows, IdentityKey)
  {
    hide Descendants, SortBy, KeyLess, PlanComplete, MatchedCells, AddedCells, RemovedCells, Sorted, StrictlySorted;
    var found := Descendants(cs, b.sourceId);
    var sorted := SortBy(found, PreparedOrder);
    var rows := LineageRows(key, plan, b, cs);
    if |sorted| > 0 {
      SortProps(found, PreparedOrder);
      DescendantsMembers(cs, b.sourceId);
      DescendantsDistinct(cs, b.sourceId);
      DistinctKeysOfPermutation(found, sorted, PreparedId);
      forall i | 0 <= i < |rows| ensures rows[i].status != Removed && rows[i].identity == sorted[i].condition.id {}
      forall i | 0 <= i < |rows|
        ensures exists k ::
          0 <= k < |cs| && cs[k].condition.id == rows[i].identity && Derived(cs[k].condition, {b.sourceId}) {
        MemberOfPermutation(found, sorted, i);
        var k := IndexOf(cs, sorted[i]);
        assert Derived(cs[k].condition, {b.sourceId});
      }
      forall i, j | 0 <= i < j < |rows| ensures IdentityKey(rows[i]) != IdentityKey(rows[j]) {
        assert PreparedId(sorted[i]) != PreparedId(sorted[j]);
        assert IdentityKey(rows[i])[1] == Num(rows[i].identity) && IdentityKey(rows[j])[1] == Num(rows[j].identity);
      }
    }
  }

  function PreparedId(c: PreparedCondition): Key { [Num(c.condition.id)] }

  lemma {:induction false} DescendantsDistinct(cs: seq<PreparedCondition>, sourceId: int)
    requires DistinctPrepared(cs)
    ensures DistinctKeys(Descendants(cs, sourceId), PreparedId)
  {
    var n := |cs| - 1;
    if n >= 0 {
      DescendantsDistinct(cs[..n], sourceId);
      DescendantsMembers(cs[..n], sourceId);
      var d := Descendants(cs[..n], sourceId);
      forall i | 0 <= i < |d| ensures PreparedId(d[i]) != PreparedId(cs[n]) {
        assert d[i] in d;
        var k := IndexOf(cs[..n], d[i]);
        assert cs[k].condition.id != cs[n].condition.id;
        assert PreparedId(d[i])[0] == Num(cs[k].condition.id) && PreparedId(cs[n])[0] == Num(cs[n].condition.id);
      }
      DistinctAppend(d, cs[n], PreparedId);
      assert d + [] == d;
    }
  }

  lemma {:induction false} UnmatchedMembers(cs: seq<PreparedCondition>, sources: set<int>)
    ensures forall x :: x in Unmatched(cs, sources) ==> x in cs && !Derived(x.condition, sources)
    ensures DistinctPrepared(cs) ==> DistinctKeys(Unmatched(cs, sources), PreparedId)
  {
    hide Derived;
    var n := |cs| - 1;
    if n >= 0 {
      UnmatchedMembers(cs[..n], sources);
      var u := Unmatched(cs[..n], sources);
      assert u + [] == u;
      if DistinctPrepared(cs) {
        forall i | 0 <= i < |u| ensures PreparedId(u[i]) != PreparedId(cs[n]) {
          assert u[i] in u;
          var k := IndexOf(cs[..n], u[i]);
          assert cs[k].condition.id != cs[n].condition.id;
          assert PreparedId(u[i])[0] == Num(cs[k].condition.id) && PreparedId(cs[n])[0] == Num(cs[n].condition.id);
        }
        DistinctAppend(u, cs[n], PreparedId);
      }
    }
  }

  lemma {:induction false} RowsOfWiden(rows: seq<Row>, small: set<int>, large: set<int>, cs: seq<PreparedCondition>)
    requires RowsOf(rows, small, cs) && small <= large
    ensures RowsOf(rows, large, cs)
  {
    forall i | 0 <= i < |rows| && rows[i].status != Removed
      ensures exists k :: 0 <= k < |cs| && cs[k].condition.id == rows[i].identity && Derived(cs[k].condition, large)
    {
      var k :| 0 <= k < |cs| && cs[k].condition.id == rows[i].identity && Derived(cs[k].condition, small);
      assert Derived(cs[k].condition, large);
    }
  }

  lemma {:induction false} RowsApart(a: seq<Row>, b: seq<Row>, s: set<int>, t: set<int>, cs: seq<PreparedCondition>)
    requires RowsOf(a, s, cs) && RowsOf(b, t, cs) && s !! t && DistinctPrepared(cs)
    ensures forall i, j :: 0 <= i < |a| && 0 <= j < |b| ==> IdentityKey(a[i]) != IdentityKey(b[j])
  {
    forall i, j | 0 <= i < |a| && 0 <= j < |b| ensures IdentityKey(a[i]) != IdentityKey(b[j]) {
      assert IdentityKey(a[i])[0] == Num(if a[i].status == Removed then 1 else 0)
        && IdentityKey(b[j])[0] == Num(if b[j].status == Removed then 1 else 0);
      assert IdentityKey(a[i])[1] == Num(a[i].identity) && IdentityKey(b[j])[1] == Num(b[j].identity);
      if a[i].status != Removed && b[j].status != Removed {
        var k :| 0 <= k < |cs| && cs[k].condition.id == a[i].identity && Derived(cs[k].condition, s);
        var m :| 0 <= m < |cs| && cs[m].condition.id == b[j].identity && Derived(cs[m].condition, t);
        assert k != m;
      }
    }
  }

  lemma {:induction false} BaselineIdentities(key: string, plan: Plan, bs: seq<Condition>, cs: seq<PreparedCondition>)
    requires PlanComplete(plan) && DistinctPrepared(cs) && DistinctConditions(bs)
    ensures var rows := BaselineRows(key, plan, bs, cs);
      RowsOf(rows, SourceIds(bs), cs) && DistinctKeys(rows, IdentityKey)
  {
    hide LineageRows, PlanComplete, RowsOf, DistinctPrepared, IdentityKey;
    var n := |bs| - 1;
    if n >= 0 {
      var before, more := BaselineRows(key, plan, bs[..n], cs), LineageRows(key, plan, bs[n], cs);
      BaselineIdentities(key, plan, bs[..n], cs);
      LineageIdentities(key, plan, bs[n], cs);
      SourceIdsNext(bs, n);
      assert bs[..n + 1] == bs;
      assert bs[n].sourceId !in SourceIds(bs[..n]);
      RowsApart(before, more, SourceIds(bs[..n]), {bs[n].sourceId}, cs);
      DistinctConcat(before, more, IdentityKey);
      RowsOfWiden(before, SourceIds(bs[..n]), SourceIds(bs), cs);
      RowsOfWiden(more, {bs[n].sourceId}, SourceIds(bs), cs);
      RowsOfConcat(before, more, SourceIds(bs), cs);
    } else {
      NoRows(SourceIds(bs), cs);
    }
  }

  lemma {:induction false} NoRows(sources: set<int>, cs: seq<PreparedCondition>)
    ensures RowsOf([], sources, cs)
  {
  }

  lemma {:induction false} RowsOfConcat(a: seq<Row>, b: seq<Row>, sources: set<int>, cs: seq<PreparedCondition>)
    requires RowsOf(a, sources, cs) && RowsOf(b, sources, cs)
    ensures RowsOf(a + b, sources, cs)
  {
    hide Derived;
    var all := a + b;
    forall i | 0 <= i < |all| ensures if all[i].status == Removed then all[i].identity in sources
      else exists k :: 0 <= k < |cs| && cs[k].condition.id == all[i].identity && Derived(cs[k].condition, sources)
    {
      if i < |a| { assert all[i] == a[i]; } else { assert all[i] == b[i - |a|]; }
    }
  }

  lemma {:induction false} AllIdentities(key: string, plan: Plan, bs: seq<Condition>, cs: seq<PreparedCondition>)
    requires PlanComplete(plan) && DistinctPrepared(cs) && DistinctConditions(bs)
    ensures DistinctKeys(AllRows(key, plan, bs, cs), IdentityKey)
  {
    hide PlanComplete, BaselineRows, Unmatched, Derived, AddedCells;
    var before, u := BaselineRows(key, plan, bs, cs), Unmatched(cs, SourceIds(bs));
    var more := AddedRows(key, plan, u);
    BaselineIdentities(key, plan, bs, cs);
    UnmatchedMembers(cs, SourceIds(bs));
    forall i, j | 0 <= i < j < |more| ensures IdentityKey(more[i]) != IdentityKey(more[j]) {
      assert PreparedId(u[i]) != PreparedId(u[j]);
      assert IdentityKey(more[i])[1] == Num(u[i].condition.id) && IdentityKey(more[j])[1] == Num(u[j].condition.id);
    }
    forall i, j | 0 <= i < |before| && 0 <= j < |more| ensures IdentityKey(before[i]) != IdentityKey(more[j]) {
      assert u[j] in u;
      assert IdentityKey(before[i])[0] == Num(if before[i].status == Removed then 1 else 0)
        && IdentityKey(more[j])[0] == Num(0);
      assert IdentityKey(before[i])[1] == Num(before[i].identity) && IdentityKey(more[j])[1] == Num(u[j].condition.id);
      if before[i].status != Removed {
        var k :| 0 <= k < |cs| && cs[k].condition.id == before[i].identity && Derived(cs[k].condition, SourceIds(bs));
        var m := IndexOf(cs, u[j]);
        assert k != m;
      }
    }
    DistinctConcat(before, more, IdentityKey);
  }

  lemma {:induction false} OrderDistinguishes(rows: seq<Row>)
    requires DistinctKeys(rows, IdentityKey)
    ensures DistinctKeys(rows, RowOrder)
  {
    forall i, j | 0 <= i < j < |rows| ensures RowOrder(rows[i]) != RowOrder(rows[j]) {
      assert RowOrder(rows[i])[1] == Num(StatusRank(rows[i].status))
        && RowOrder(rows[j])[1] == Num(StatusRank(rows[j].status));
      assert RowOrder(rows[i])[2] == Num(rows[i].identity) && RowOrder(rows[j])[2] == Num(rows[j].identity);
      assert IdentityKey(rows[i]) != IdentityKey(rows[j]);
    }
  }

  /** Rows are strictly sorted by effective index, status and identity. */
  lemma {:induction false} RowsStrictlySorted(l: LayerInput)
    requires CompareLayer(l).Ok? && DistinctIds(l.conditions)
    requires (l.baseline.Some? ==> DistinctConditions(l.baseline.value.conditions))
    ensures StrictlySorted(CompareLayer(l).value.rows, RowOrder)
  {
    hide PrepareLayer, AllRows, PlanComplete, SortBy, BuildPlan, AmbiguousCount, Counted, KeyLess, RowOrder;
    PreparedPlanComplete(l);
    PreparedParts(l);
    if l.baseline.Some? {
      var p := PrepareLayer(l).value;
      var all := AllRows(l.layerKey, p.plan, l.baseline.value.conditions, p.conditions);
      AllIdentities(l.layerKey, p.plan, l.baseline.value.conditions, p.conditions);
      OrderDistinguishes(all);
      SortProps(all, RowOrder);
    }
  }

  // ---------------------------------------------------------------- a removed row out of order

  const COLUMN_A := Column("a", V.Text, "A", None, 1, true)

  const COLUMN_B := Column("b", V.Text, "B", None, 2, true)

  const PARAMETER_A := CurrentParameter("a", V.Text, "A", None, 2, true)

  const PARAMETER_B := CurrentParameter("b", V.Text, "B", None, 1, true)

  const LOST_CONDITION := Condition(1, "Row", 0, true, [])

  function SwappedBaseline(): Snapshot {
    Snapshot("00000000000000000000000000000000", Instant(2024, 1, 1, 0, 0, 0, 0), Source(1, 1, "L", "S", "I"),
      [COLUMN_A, COLUMN_B], [LOST_CONDITION])
  }

  /** A layer whose only row is gone, with two columns whose order the registry has swapped since. */
  function SwappedLayer(): LayerInput {
    LayerInput("L", 0, CurrentSource(1, 1, "L", "S", "I", 0, None, None), Some(SwappedBaseline()), [],
      [PARAMETER_B, PARAMETER_A])
  }

  lemma {:induction false} SwappedKeys()
    ensures KeyLess([Num(1), Txt("a")], [Num(2), Txt("b")]) && !KeyLess([Num(2), Txt("a")], [Num(1), Txt("b")])
    ensures KeyLess([Num(1), Txt("b")], [Num(2), Txt("a")])
  {
  }

  lemma {:induction false} SwappedIsValid()
    ensures ValidLayer(SwappedLayer())
  {
    hide KeyLess, TextLess, WellFormed;
    SwappedKeys();
    SwappedBaselineIsWellFormed();
  }

  lemma {:induction false} SwappedBaselineIsWellFormed()
    ensures WellFormed(SwappedBaseline())
  {
    hide KeyLess, TextLess;
  }

  lemma {:induction false} SwappedColumns()
    ensures var columns := ColumnMap([COLUMN_A, COLUMN_B]);
      columns == map["a" := COLUMN_A, "b" := COLUMN_B] && BaselineColumns(SwappedLayer()) == columns
  {
    var both, one := [COLUMN_A, COLUMN_B], [COLUMN_A];
    assert both[..1] == one && one[..0] == [];
    assert ColumnMap(one) == map["a" := COLUMN_A];
    assert ColumnMap(both) == ColumnMap(one)["b" := COLUMN_B];
  }

  lemma {:induction false} SwappedSelection()
    ensures SelectParameters([PARAMETER_B, PARAMETER_A], {}) == Ok([PARAMETER_B, PARAMETER_A])
  {
    var ps := [PARAMETER_B, PARAMETER_A];
    var one := [PARAMETER_B];
    assert ps[..1] == one && one[..0] == [];
    assert Selected(one, {}) == one;
    assert Selected(ps, {}) == ps;
    SwappedKeys();
    SortFixed(ps, ParameterOrder);
  }

  lemma {:induction false} SwappedOrders()
    ensures !OrdersAgree(ColumnMap([COLUMN_A, COLUMN_B]), [PARAMETER_B, PARAMETER_A])
  {
    hide KeyLess;
    var columns, selected := ColumnMap([COLUMN_A, COLUMN_B]), [PARAMETER_B, PARAMETER_A];
    SwappedColumns();
    SwappedKeys();
    assert selected[..1] == [PARAMETER_B];
    assert FindParameter(selected, "a") == Some(PARAMETER_A) && FindParameter(selected, "b") == Some(PARAMETER_B);
    assert BaselineOrder(columns)("a") == [Num(1), Txt("a")] && BaselineOrder(columns)("b") == [Num(2), Txt("b")];
    assert CoordinateOrder(columns, selected)("a") == [Num(2), Txt("a")]
      && CoordinateOrder(columns, selected)("b") == [Num(1), Txt("b")];
  }

  lemma {:induction false} SwappedPrepared()
    ensures var r := PrepareLayer(SwappedLayer());
      r.Ok? && r.value.columns == ColumnMap([COLUMN_A, COLUMN_B]) && r.value.selected == [PARAMETER_B, PARAMETER_A]
        && r.value.conditions == []
  {
    hide SelectParameters, BuildPlan, ColumnMap, LayerBasis;
    SwappedColumns();
    SwappedSelection();
    assert TypesAgree(ColumnMap([COLUMN_A, COLUMN_B]), [PARAMETER_B, PARAMETER_A]);
  }

  /** A valid layer whose comparison is one removed row that lists its cells, all without value, out of order. */
  lemma {:induction false} RemovedRowOutOfOrder()
    ensures ValidLayer(SwappedLayer()) && CompareLayer(SwappedLayer()).Ok?
    ensures var rows, p := CompareLayer(SwappedLayer()).value.rows, PrepareLayer(SwappedLayer()).value;
      && |rows| == 1 && rows[0].status == Removed && |rows[0].cells| == 2
      && (forall i :: 0 <= i < 2 ==> rows[0].cells[i].baselineValue.None? && rows[0].cells[i].currentValue.None?)
      && !OrdersAgree(p.columns, p.selected) && !StrictlySorted(rows[0].cells, CellOrder)
  {
    hide PrepareLayer, KeyLess, StrictlySorted, OrdersAgree, BuildPlan, ColumnMap, PlanComplete;
    var l := SwappedLayer();
    SwappedIsValid();
    SwappedPrepared();
    SwappedOrders();
    SwappedColumns();
    assert BaselineColumns(l).Keys == {"a", "b"} && "a" != "b";
    PreparedPlanComplete(l);
    PreparedParts(l);
    ComparedFacts(l);
    var p := PrepareLayer(l).value;
    assert [LOST_CONDITION][..0] == [];
    assert LineageRows("L", p.plan, LOST_CONDITION, []) == [RemovedRow("L", p.plan, LOST_CONDITION)];
    assert AllRows("L", p.plan, [LOST_CONDITION], []) == [RemovedRow("L", p.plan, LOST_CONDITION)];
    CellOrders(l, 0);
  }
}
