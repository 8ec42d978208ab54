/**
 * What a comparison keeps (backend/app/domain/backbone/diff.py): nothing is lost on either side,
 * the counters add up, and rows and cells are strictly ordered.
 */
module DiffLaws {
  import opened Results
  import opened Ordering
  import opened BaselineSnapshot
  import opened BackboneDiff
  import opened DiffEngine

  // ---------------------------------------------------------------- projecting rows to one side

  /** The cell has a coordinate on the current side. */
  predicate OnCurrent(c: CellChange) { c.reason != ColumnRemoved && c.reason != RowRemoved }

  predicate OnBaseline(c: CellChange) { c.reason != ColumnAdded && c.reason != RowAdded }

  function CurrentSide(cells: seq<CellChange>): map<string, Option<string>> {
    if |cells| == 0 then map[]
    else
      var before, last := CurrentSide(cells[..|cells| - 1]), cells[|cells| - 1];
      if OnCurrent(last) then before[last.code := last.currentValue] else before
  }

  function BaselineSide(cells: seq<CellChange>): map<string, Option<string>> {
    if |cells| == 0 then map[]
    else
      var before, last := BaselineSide(cells[..|cells| - 1]), cells[|cells| - 1];
      if OnBaseline(last) then before[last.code := last.baselineValue] else before
  }

  /** One side of one condition: its header and its value at every column of that side, absent being null. */
  datatype View = View(id: int, sourceId: Option<int>, labelText: string, conditionIndex: int, isPor: bool,
      values: map<string, Option<string>>)

  function ProjectCurrent(r: Row): Option<View> {
    match (r.currentId, r.currentLabel, r.currentIndex, r.currentIsPor)
    case (Some(id), Some(text), Some(index), Some(por)) =>
      Some(View(id, r.baselineSourceId, text, index, por, CurrentSide(r.cells)))
    case _ => None
  }

  function ProjectBaseline(r: Row): Option<View> {
    match (r.baselineSourceId, r.baselineLabel, r.baselineIndex, r.baselineIsPor)
    case (Some(id), Some(text), Some(index), Some(por)) =>
      Some(View(id, None, text, index, por, BaselineSide(r.cells)))
    case _ => None
  }

  function CurrentView(universe: set<string>, c: PreparedCondition): View {
    View(c.condition.id, c.condition.sourceId, c.condition.labelText, c.condition.conditionIndex, c.condition.isPor,
         map code | code in universe :: CurrentValue(c, code))
  }

  function BaselineView(universe: set<string>, b: Condition): View {
    View(b.sourceId, None, b.labelText, b.conditionIndex, b.isPor,
      map code | code in universe :: BaselineValue(b, code))
  }

  function CurrentViews(universe: set<string>, cs: seq<PreparedCondition>): (r: seq<View>)
    ensures |r| == |cs| && forall i :: 0 <= i < |r| ==> r[i] == CurrentView(universe, cs[i])
  {
    if |cs| == 0 then [] else CurrentViews(universe, cs[..|cs| - 1]) + [CurrentView(universe, cs[|cs| - 1])]
  }

  function BaselineViews(universe: set<string>, bs: seq<Condition>): seq<View> {
    if |bs| == 0 then [] else BaselineViews(universe, bs[..|bs| - 1]) + [BaselineView(universe, bs[|bs| - 1])]
  }

  /** The projections of the rows that have that side. */
  function Collect(rows: seq<Row>, project: Row -> Option<View>): seq<View> {
    if |rows| == 0 then []
    else (if project(rows[0]).Some? then [project(rows[0]).value] else []) + Collect(rows[1..], project)
  }

  lemma {:induction false} CollectConcat(a: seq<Row>, b: seq<Row>, project: Row -> Option<View>)
    ensures Collect(a + b, project) == Collect(a, project) + Collect(b, project)
  {
    if |a| == 0 {
      assert a + b == b;
    } else {
      CollectConcat(a[1..], b, project);
      assert (a + b)[1..] == a[1..] + b;
    }
  }

  lemma {:induction false} CollectInsert(x: Row, rows: seq<Row>, key: Row -> Key, project: Row -> Option<View>)
    ensures multiset(Collect(Insert(x, rows, key), project)) == multiset(Collect([x] + rows, project))
  {
    hide KeyLess;
    CollectConcat([x], rows, project);
    if |rows| > 0 && KeyLess(key(rows[0]), key(x)) {
      var t := Insert(x, rows[1..], key);
      CollectInsert(x, rows[1..], key, project);
      CollectConcat([rows[0]], t, project);
      CollectConcat([rows[0]], rows[1..], project);
      CollectConcat([x], rows[1..], project);
      assert [rows[0]] + rows[1..] == rows;
    }
  }

  /** Sorting rows permutes their projections. */
  lemma {:induction false} CollectSorted(rows: seq<Row>, key: Row -> Key, project: Row -> Option<View>)
    ensures multiset(Collect(SortBy(rows, key), project)) == multiset(Collect(rows, project))
  {
    hide Insert;
    if |rows| > 0 {
      CollectSorted(rows[1..], key, project);
      CollectInsert(rows[0], SortBy(rows[1..], key), key, project);
      CollectConcat([rows[0]], SortBy(rows[1..], key), project);
      CollectConcat([rows[0]], rows[1..], project);
      assert [rows[0]] + rows[1..] == rows;
    }
  }

  // ---------------------------------------------------------------- what a plan contains

  predicate Distinct'(codes: seq<string>) { forall i, j :: 0 <= i < j < |codes| ==> codes[i] != codes[j] }

  lemma {:induction false} SortedCodes(codes: set<string>, key: string -> Key)
    requires forall a, b :: key(a) == key(b) ==> a == b
    ensures var r := SortBy(SortedTexts(codes), key);
      && StrictlySorted(r, key) && Distinct'(r) && |r| == |codes|
      && (forall i :: 0 <= i < |r| ==> r[i] in codes) && (forall c :: c in codes ==> c in r)
  {
    hide SortBy, SortedTexts, KeyLess, TextLess;
    var list := SortedTexts(codes);
    SortedTextsProps(codes);
    SortedCodesMembers(codes, key);
    forall i, j | 0 <= i < j < |list| ensures key(list[i]) != key(list[j]) { TextTotal(list[i], list[j]); }
    SortProps(list, key);
    var r := SortBy(list, key);
    StrictIsSorted(r, key);
  }

  lemma {:induction false} OrdersIdentify(columns: map<string, Column>, selected: seq<CurrentParameter>)
    ensures forall a, b :: CoordinateOrder(columns, selected)(a) == CoordinateOrder(columns, selected)(b) ==> a == b
    ensures forall a, b :: BaselineOrder(columns)(a) == BaselineOrder(columns)(b) ==> a == b
  {
    hide ShownOrder;
    forall a, b | CoordinateOrder(columns, selected)(a) == CoordinateOrder(columns, selected)(b) ensures a == b {
      assert CoordinateOrder(columns, selected)(a)[1] == Txt(a) && CoordinateOrder(columns, selected)(b)[1] == Txt(b);
    }
    forall a, b | BaselineOrder(columns)(a) == BaselineOrder(columns)(b) ensures a == b {
      assert BaselineOrder(columns)(a)[1] == Txt(a) && BaselineOrder(columns)(b)[1] == Txt(b);
    }
  }

  /** The three code lists enumerate the union, the current and the baseline columns once each. */
  lemma {:induction false} PlanLists(columns: map<string, Column>, selected: seq<CurrentParameter>)
    ensures var plan := BuildPlan(columns, selected);
      && PlanComplete(plan)
      && Distinct'(plan.codes) && Distinct'(plan.addedCodes) && Distinct'(plan.removedCodes)
      && (forall c :: c in plan.codes <==> c in columns || c in ParameterCodes(selected))
      && (forall c :: c in plan.addedCodes <==> c in ParameterCodes(selected))
      && (forall c :: c in plan.removedCodes <==> c in columns)
      && |plan.codes| == |columns.Keys + ParameterCodes(selected)| && |plan.addedCodes| == |ParameterCodes(selected)|
      && |plan.removedCodes| == |columns.Keys|
      && StrictlySorted(plan.codes, CoordinateOrder(columns, selected))
      && StrictlySorted(plan.addedCodes, CoordinateOrder(columns, selected))
      && StrictlySorted(plan.removedCodes, BaselineOrder(columns))
      && (forall c :: c in plan.coordinates ==> plan.coordinates[c] == PlanCoordinate(columns, selected, c))
  {
    hide SortBy, SortedTexts, PlanCoordinate, CoordinateOrder, BaselineOrder, StrictlySorted, Distinct';
    BuiltPlanComplete(columns, selected);
    OrdersIdentify(columns, selected);
    SortedCodes(columns.Keys + ParameterCodes(selected), CoordinateOrder(columns, selected));
    SortedCodes(ParameterCodes(selected), CoordinateOrder(columns, selected));
    SortedCodes(columns.Keys, BaselineOrder(columns));
    hide ParameterCodes;
    var plan := BuildPlan(columns, selected);
    forall c ensures c in plan.codes <==> c in columns || c in ParameterCodes(selected) {
      if c in plan.codes { var i := IndexOf(plan.codes, c); }
    }
    forall c ensures c in plan.addedCodes <==> c in ParameterCodes(selected) {
      if c in plan.addedCodes { var i := IndexOf(plan.addedCodes, c); }
    }
    forall c ensures c in plan.removedCodes <==> c in columns {
      if c in plan.removedCodes { var i := IndexOf(plan.removedCodes, c); }
    }
  }

  // ---------------------------------------------------------------- one row rebuilds its condition

  /** What a classified coordinate means, in terms of the two columns and values. */
  lemma {:induction false} CoordinateMeaning(at: Coordinate, was: Option<string>, now: Option<string>)
    requires at.inBaseline || at.inCurrent
    ensures var c := CompareCoordinate(at, was, now);
      && c.code == at.code && c.sortOrder == at.sortOrder
      && (OnBaseline(c) <==> at.inBaseline) && (OnCurrent(c) <==> at.inCurrent)
      && c.baselineValue == (if at.inBaseline then was else None)
      && c.currentValue == (if at.inCurrent then now else None)
      && (c.classification == UnchangedCell <==> at.inBaseline && at.inCurrent && was == now)
      && (c.classification == ChangedCell <==> at.inBaseline && at.inCurrent && was.Some? && now.Some? && was != now)
      && (c.classification == ClearedCell <==> at.inBaseline && at.inCurrent && was.Some? && now.None?)
      && (c.classification == AddedCell <==> at.inCurrent && (!at.inBaseline || (was.None? && now.Some?)))
      && (c.classification == RemovedCell <==> at.inBaseline && !at.inCurrent)
  {
  }

  predicate DistinctCellCodes(cells: seq<CellChange>) {
    forall i, j :: 0 <= i < j < |cells| ==> cells[i].code != cells[j].code
  }

  lemma {:induction false} CurrentSideAt(cells: seq<CellChange>)
    requires DistinctCellCodes(cells)
    ensures forall i :: 0 <= i < |cells| && OnCurrent(cells[i]) ==>
      cells[i].code in CurrentSide(cells) && CurrentSide(cells)[cells[i].code] == cells[i].currentValue
    ensures forall code :: code in CurrentSide(cells) ==>
      exists i :: 0 <= i < |cells| && OnCurrent(cells[i]) && cells[i].code == code
  {
    hide OnCurrent;
    var n := |cells| - 1;
    if n >= 0 {
      var before := cells[..n];
      CurrentSideAt(before);
      forall i | 0 <= i < |cells| && OnCurrent(cells[i])
        ensures cells[i].code in CurrentSide(cells) && CurrentSide(cells)[cells[i].code] == cells[i].currentValue {
        if i < n { assert before[i] == cells[i]; }
      }
      forall code | code in CurrentSide(cells)
        ensures exists i :: 0 <= i < |cells| && OnCurrent(cells[i]) && cells[i].code == code {
        if code in CurrentSide(before) {
          var i :| 0 <= i < n && OnCurrent(before[i]) && before[i].code == code;
          assert cells[i] == before[i];
        } else {
          assert OnCurrent(cells[n]) && cells[n].code == code;
        }
      }
    }
  }

  lemma {:induction false} BaselineSideAt(cells: seq<CellChange>)
    requires DistinctCellCodes(cells)
    ensures forall i :: 0 <= i < |cells| && OnBaseline(cells[i]) ==>
      cells[i].code in BaselineSide(cells) && BaselineSide(cells)[cells[i].code] == cells[i].baselineValue
    ensures forall code :: code in BaselineSide(cells) ==>
      exists i :: 0 <= i < |cells| && OnBaseline(cells[i]) && cells[i].code == code
  {
    hide OnBaseline;
    var n := |cells| - 1;
    if n >= 0 {
      var before := cells[..n];
      BaselineSideAt(before);
      forall i | 0 <= i < |cells| && OnBaseline(cells[i])
        ensures cells[i].code in BaselineSide(cells) && BaselineSide(cells)[cells[i].code] == cells[i].baselineValue {
        if i < n { assert before[i] == cells[i]; }
      }
      forall code | code in BaselineSide(cells)
        ensures exists i :: 0 <= i < |cells| && OnBaseline(cells[i]) && cells[i].code == code {
        if code in BaselineSide(before) {
          var i :| 0 <= i < n && OnBaseline(before[i]) && before[i].code == code;
          assert cells[i] == before[i];
        } else {
          assert OnBaseline(cells[n]) && cells[n].code == code;
        }
      }
    }
  }

  /** A side is rebuilt when its cells are exactly the codes of the universe with their values. */
  lemma {:induction false} CurrentSideIs(cells: seq<CellChange>, universe: set<string>, c: PreparedCondition)
    requires DistinctCellCodes(cells)
    requires forall i :: 0 <= i < |cells| ==> (OnCurrent(cells[i]) <==> cells[i].code in universe)
    requires forall i :: 0 <= i < |cells| && OnCurrent(cells[i]) ==>
      cells[i].currentValue == CurrentValue(c, cells[i].code)
    requires forall code :: code in universe ==> exists i :: 0 <= i < |cells| && cells[i].code == code
    ensures CurrentSide(cells) == map code | code in universe :: CurrentValue(c, code)
  {
    hide OnCurrent, CurrentValue, CurrentSide;
    CurrentSideAt(cells);
    forall code ensures code in CurrentSide(cells) <==> code in universe {
      if code in universe { var i :| 0 <= i < |cells| && cells[i].code == code; }
    }
    forall code | code in universe ensures CurrentSide(cells)[code] == CurrentValue(c, code) {
      var i :| 0 <= i < |cells| && cells[i].code == code;
    }
  }

  lemma {:induction false} BaselineSideIs(cells: seq<CellChange>, universe: set<string>, b: Condition)
    requires DistinctCellCodes(cells)
    requires forall i :: 0 <= i < |cells| ==> (OnBaseline(cells[i]) <==> cells[i].code in universe)
    requires forall i :: 0 <= i < |cells| && OnBaseline(cells[i]) ==>
      cells[i].baselineValue == BaselineValue(b, cells[i].code)
    requires forall code :: code in universe ==> exists i :: 0 <= i < |cells| && cells[i].code == code
    ensures BaselineSide(cells) == map code | code in universe :: BaselineValue(b, code)
  {
    hide OnBaseline, BaselineValue, BaselineSide;
    BaselineSideAt(cells);
    forall code ensures code in BaselineSide(cells) <==> code in universe {
      if code in universe { var i :| 0 <= i < |cells| && cells[i].code == code; }
    }
    forall code | code in universe ensures BaselineSide(cells)[code] == BaselineValue(b, code) {
      var i :| 0 <= i < |cells| && cells[i].code == code;
    }
  }

  lemma {:induction false} CodeListed(codes: seq<string>, cells: seq<CellChange>, code: string)
    requires |cells| == |codes| && (forall i :: 0 <= i < |codes| ==> cells[i].code == codes[i]) && code in codes
    ensures exists i :: 0 <= i < |cells| && cells[i].code == code
  {
    var i := IndexOf(codes, code);
    assert cells[i].code == code;
  }

  /** A matched row rebuilds both of its conditions. */
  lemma {:induction false} MatchedRowRebuilds(key: string, columns: map<string, Column>,
      selected: seq<CurrentParameter>, b: Condition, c: PreparedCondition)
    requires c.condition.sourceId == Some(b.sourceId)
    ensures PlanComplete(BuildPlan(columns, selected))
    ensures var r := MatchedRow(key, BuildPlan(columns, selected), b, c);
      ProjectCurrent(r) == Some(CurrentView(ParameterCodes(selected), c))
        && ProjectBaseline(r) == Some(BaselineView(columns.Keys, b))
  {
    hide BuildPlan, CompareCoordinate, BaselineValue, CurrentValue, OnBaseline, OnCurrent, CurrentSide, BaselineSide,
         StrictlySorted, MetadataChanges;
    var plan := BuildPlan(columns, selected);
    PlanLists(columns, selected);
    var cells := MatchedCells(plan, b, c);
    forall i | 0 <= i < |cells|
      ensures cells[i].code == plan.codes[i]
      ensures OnCurrent(cells[i]) <==> cells[i].code in ParameterCodes(selected)
      ensures OnBaseline(cells[i]) <==> cells[i].code in columns.Keys
      ensures OnCurrent(cells[i]) ==> cells[i].currentValue == CurrentValue(c, cells[i].code)
      ensures OnBaseline(cells[i]) ==> cells[i].baselineValue == BaselineValue(b, cells[i].code)
    {
      var code := plan.codes[i];
      assert code in plan.codes;
      FindParameterMember(selected, code);
      CoordinateMeaning(plan.coordinates[code], BaselineValue(b, code), CurrentValue(c, code));
    }
    assert DistinctCellCodes(cells);
    forall code | code in ParameterCodes(selected) || code in columns.Keys
      ensures exists i :: 0 <= i < |cells| && cells[i].code == code {
      CodeListed(plan.codes, cells, code);
    }
    hide ParameterCodes, MatchedCells, DistinctCellCodes, FindParameter, PlanCoordinate;
    CurrentSideIs(cells, ParameterCodes(selected), c);
    BaselineSideIs(cells, columns.Keys, b);
  }

  lemma {:induction false} AddedCellsSide(columns: map<string, Column>, selected: seq<CurrentParameter>,
      c: PreparedCondition)
    ensures PlanComplete(BuildPlan(columns, selected))
    ensures CurrentSide(AddedCells(BuildPlan(columns, selected), c)) ==
      map code | code in ParameterCodes(selected) :: CurrentValue(c, code)
  {
    hide BuildPlan, CurrentValue, CurrentSide, StrictlySorted, PlanCoordinate, BaselineOrder, CoordinateOrder;
    var plan := BuildPlan(columns, selected);
    PlanLists(columns, selected);
    var cells := AddedCells(plan, c);
    forall i | 0 <= i < |cells|
      ensures cells[i].code == plan.addedCodes[i] && cells[i].code in ParameterCodes(selected) {
      assert plan.addedCodes[i] in plan.addedCodes;
    }
    forall code | code in ParameterCodes(selected) ensures exists i :: 0 <= i < |cells| && cells[i].code == code {
      CodeListed(plan.addedCodes, cells, code);
    }
    hide ParameterCodes;
    CurrentSideIs(cells, ParameterCodes(selected), c);
  }

  lemma {:induction false} AddedRowRebuilds(key: string, columns: map<string, Column>, selected: seq<CurrentParameter>,
      c: PreparedCondition)
    ensures PlanComplete(BuildPlan(columns, selected))
    ensures var r := AddedRow(key, BuildPlan(columns, selected), c);
      ProjectCurrent(r) == Some(CurrentView(ParameterCodes(selected), c)) && ProjectBaseline(r) == None
  {
    hide BuildPlan, CurrentValue, CurrentSide, BaselineSide, ParameterCodes, PlanComplete, AddedCells;
    AddedCellsSide(columns, selected, c);
  }

  lemma {:induction false} RemovedCellsSide(columns: map<string, Column>, selected: seq<CurrentParameter>, b: Condition)
    ensures PlanComplete(BuildPlan(columns, selected))
    ensures BaselineSide(RemovedCells(BuildPlan(columns, selected), b)) ==
      map code | code in columns.Keys :: BaselineValue(b, code)
  {
    hide BuildPlan, BaselineValue, BaselineSide, StrictlySorted, PlanCoordinate, ParameterCodes, BaselineOrder,
         CoordinateOrder;
    var plan := BuildPlan(columns, selected);
    PlanLists(columns, selected);
    var cells := RemovedCells(plan, b);
    forall i | 0 <= i < |cells| ensures cells[i].code == plan.removedCodes[i] && cells[i].code in columns.Keys {
      assert plan.removedCodes[i] in plan.removedCodes;
    }
    forall code | code in columns.Keys ensures exists i :: 0 <= i < |cells| && cells[i].code == code {
      CodeListed(plan.removedCodes, cells, code);
    }
    BaselineSideIs(cells, columns.Keys, b);
  }

  lemma {:induction false} RemovedRowRebuilds(key: string, columns: map<string, Column>,
      selected: seq<CurrentParameter>, b: Condition)
    ensures PlanComplete(BuildPlan(columns, selected))
    ensures var r := RemovedRow(key, BuildPlan(columns, selected), b);
      ProjectBaseline(r) == Some(BaselineView(columns.Keys, b)) && ProjectCurrent(r) == None
  {
    hide BuildPlan, BaselineValue, CurrentSide, BaselineSide, ParameterCodes, PlanComplete, RemovedCells;
    RemovedCellsSide(columns, selected, b);
  }

  // ---------------------------------------------------------------- all rows together

  lemma {:induction false} AddedRowsCurrent(key: string, columns: map<string, Column>, selected: seq<CurrentParameter>,
      cs: seq<PreparedCondition>)
    ensures PlanComplete(BuildPlan(columns, selected))
    ensures var rows := AddedRows(key, BuildPlan(columns, selected), cs);
      Collect(rows, ProjectCurrent) == CurrentViews(ParameterCodes(selected), cs)
        && Collect(rows, ProjectBaseline) == []
  {
    hide BuildPlan, AddedRow, CurrentView, ProjectCurrent, ProjectBaseline, PlanComplete;
    BuiltPlanComplete(columns, selected);
    var plan := BuildPlan(columns, selected);
    var n := |cs| - 1;
    if n >= 0 {
      AddedRowsCurrent(key, columns, selected, cs[..n]);
      AddedRowRebuilds(key, columns, selected, cs[n]);
      AddedRowsNext(key, plan, cs[..n], cs[n]);
      assert cs[..n] + [cs[n]] == cs;
      CollectConcat(AddedRows(key, plan, cs[..n]), [AddedRow(key, plan, cs[n])], ProjectCurrent);
      CollectConcat(AddedRows(key, plan, cs[..n]), [AddedRow(key, plan, cs[n])], ProjectBaseline);
      CollectOne(AddedRow(key, plan, cs[n]), ProjectCurrent);
      CollectOne(AddedRow(key, plan, cs[n]), ProjectBaseline);
    }
  }

  lemma {:induction false} CollectOne(r: Row, project: Row -> Option<View>)
    ensures Collect([r], project) == if project(r).Some? then [project(r).value] else []
  {
    assert [r][1..] == [];
  }

  lemma {:induction false} ViewsConcat(universe: set<string>, a: seq<PreparedCondition>, b: seq<PreparedCondition>)
    ensures CurrentViews(universe, a + b) == CurrentViews(universe, a) + CurrentViews(universe, b)
  {
    hide CurrentView;
  }

  lemma {:induction false} ViewsInsert(universe: set<string>, x: PreparedCondition, cs: seq<PreparedCondition>)
    ensures multiset(CurrentViews(universe, Insert(x, cs, PreparedOrder))) ==
      multiset{CurrentView(universe, x)} + multiset(CurrentViews(universe, cs))
  {
    hide CurrentView, CurrentViews, KeyLess;
    if |cs| > 0 && KeyLess(PreparedOrder(cs[0]), PreparedOrder(x)) {
      var t := Insert(x, cs[1..], PreparedOrder);
      ViewsInsert(universe, x, cs[1..]);
      ViewsConcat(universe, [cs[0]], t);
      ViewsConcat(universe, [cs[0]], cs[1..]);
      assert [cs[0]] + cs[1..] == cs;
    } else {
      ViewsConcat(universe, [x], cs);
      OneView(universe, x);
    }
  }

  lemma {:induction false} ViewsSorted(universe: set<string>, cs: seq<PreparedCondition>)
    ensures multiset(CurrentViews(universe, SortBy(cs, PreparedOrder))) == multiset(CurrentViews(universe, cs))
  {
    hide CurrentView, CurrentViews, Insert;
    if |cs| > 0 {
      ViewsSorted(universe, cs[1..]);
      ViewsInsert(universe, cs[0], SortBy(cs[1..], PreparedOrder));
      ViewsConcat(universe, [cs[0]], cs[1..]);
      OneView(universe, cs[0]);
      assert [cs[0]] + cs[1..] == cs;
    }
  }

  lemma {:induction false} LineageWithMatch(key: string, columns: map<string, Column>, selected: seq<CurrentParameter>,
      b: Condition, first: PreparedCondition, rest: seq<PreparedCondition>)
    requires first.condition.sourceId == Some(b.sourceId)
    ensures PlanComplete(BuildPlan(columns, selected))
    ensures var rows := [MatchedRow(key, BuildPlan(columns, selected), b, first)]
      + AddedRows(key, BuildPlan(columns, selected), rest);
      && Collect(rows, ProjectBaseline) == [BaselineView(columns.Keys, b)]
      && Collect(rows, ProjectCurrent) == CurrentViews(ParameterCodes(selected), [first] + rest)
  {
    hide BuildPlan, MatchedRow, AddedRows, CurrentView, BaselineView, ProjectCurrent, ProjectBaseline, PlanComplete,
         Collect, CurrentViews, ParameterCodes;
    MatchedRowRebuilds(key, columns, selected, b, first);
    AddedRowsCurrent(key, columns, selected, rest);
    var plan := BuildPlan(columns, selected);
    var head := MatchedRow(key, plan, b, first);
    CollectConcat([head], AddedRows(key, plan, rest), ProjectCurrent);
    CollectConcat([head], AddedRows(key, plan, rest), ProjectBaseline);
    CollectOne(head, ProjectCurrent);
    CollectOne(head, ProjectBaseline);
    ViewsConcat(ParameterCodes(selected), [first], rest);
    OneView(ParameterCodes(selected), first);
  }

  lemma {:induction false} OneView(universe: set<string>, c: PreparedCondition)
    ensures CurrentViews(universe, [c]) == [CurrentView(universe, c)]
  {
    hide CurrentView;
  }

  /** The rows of one lineage: its baseline condition once, and each descendant once. */
  lemma {:induction false} LineageRebuilds(key: string, columns: map<string, Column>, selected: seq<CurrentParameter>,
      b: Condition, cs: seq<PreparedCondition>)
    ensures PlanComplete(BuildPlan(columns, selected))
    ensures var rows := LineageRows(key, BuildPlan(columns, selected), b, cs);
      && Collect(rows, ProjectBaseline) == [BaselineView(columns.Keys, b)]
      && multiset(Collect(rows, ProjectCurrent)) ==
        multiset(CurrentViews(ParameterCodes(selected), Descendants(cs, b.sourceId)))
  {
    hide BuildPlan, AddedRows, MatchedRow, RemovedRow, CurrentView, BaselineView, ProjectCurrent, ProjectBaseline,
         PlanComplete, Descendants, SortBy, KeyLess, Collect, CurrentViews, ParameterCodes, Sorted, StrictlySorted;
    BuiltPlanComplete(columns, selected);
    var plan := BuildPlan(columns, selected);
    var found := Descendants(cs, b.sourceId);
    var sorted := SortBy(found, PreparedOrder);
    SortProps(found, PreparedOrder);
    ViewsSorted(ParameterCodes(selected), found);
    if |sorted| == 0 {
      RemovedRowRebuilds(key, columns, selected, b);
      CollectOne(RemovedRow(key, plan, b), ProjectCurrent);
      CollectOne(RemovedRow(key, plan, b), ProjectBaseline);
      NoViews(ParameterCodes(selected));
      assert sorted == [];
    } else {
      DescendantsMembers(cs, b.sourceId);
      MemberOfPermutation(found, sorted, 0);
      LineageWithMatch(key, columns, selected, b, sorted[0], sorted[1..]);
      assert [sorted[0]] + sorted[1..] == sorted;
    }
  }

  lemma {:induction false} NoViews(universe: set<string>)
    ensures CurrentViews(universe, []) == []
  {
  }

  lemma {:induction false} NoneMatched(cs: seq<PreparedCondition>)
    ensures Unmatched(cs, {}) == cs
  {
    var n := |cs| - 1;
    if n >= 0 {
      NoneMatched(cs[..n]);
      assert cs == cs[..n] + [cs[n]];
    }
  }

  lemma {:induction false} BaselineRowsRebuild(key: string, columns: map<string, Column>,
      selected: seq<CurrentParameter>, bs: seq<Condition>, cs: seq<PreparedCondition>)
    requires DistinctConditions(bs)
    ensures PlanComplete(BuildPlan(columns, selected))
    ensures var rows := BaselineRows(key, BuildPlan(columns, selected), bs, cs);
      && Collect(rows, ProjectBaseline) == BaselineViews(columns.Keys, bs)
      && multiset(Collect(rows, ProjectCurrent))
        + multiset(CurrentViews(ParameterCodes(selected), Unmatched(cs, SourceIds(bs)))) ==
          multiset(CurrentViews(ParameterCodes(selected), cs))
  {
    hide BuildPlan, LineageRows, BaselineView, CurrentView, PlanComplete, ProjectCurrent, ProjectBaseline, Unmatched,
         Descendants, CurrentViews, ParameterCodes;
    BuiltPlanComplete(columns, selected);
    var plan := BuildPlan(columns, selected);
    var n := |bs| - 1;
    if n >= 0 {
      var before, b := bs[..n], bs[n];
      BaselineRowsRebuild(key, columns, selected, before, cs);
      LineageRebuilds(key, columns, selected, b, cs);
      CollectConcat(BaselineRows(key, plan, before, cs), LineageRows(key, plan, b, cs), ProjectBaseline);
      CollectConcat(BaselineRows(key, plan, before, cs), LineageRows(key, plan, b, cs), ProjectCurrent);
      assert bs[..n + 1] == bs;
      SourceIdsNext(bs, n);
      assert b.sourceId !in SourceIds(before);
      SplitViews(ParameterCodes(selected), cs, SourceIds(before), b.sourceId);
    } else {
      assert SourceIds(bs) == {};
      NoneMatched(cs);
    }
  }

  lemma {:induction false} SplitViews(universe: set<string>, cs: seq<PreparedCondition>, sources: set<int>,
      sourceId: int)
    requires sourceId !in sources
    ensures multiset(CurrentViews(universe, Unmatched(cs, sources)))
      == multiset(CurrentViews(universe, Unmatched(cs, sources + {sourceId}))) + multiset(CurrentViews(universe,
        Descendants(cs, sourceId)))
  {
    hide CurrentView, CurrentViews;
    var n := |cs| - 1;
    if n >= 0 {
      SplitViews(universe, cs[..n], sources, sourceId);
      var u, v, d := Unmatched(cs[..n], sources), Unmatched(cs[..n], sources + {sourceId}),
        Descendants(cs[..n], sourceId);
      ViewsConcat(universe, u, [cs[n]]);
      ViewsConcat(universe, v, [cs[n]]);
      ViewsConcat(universe, d, [cs[n]]);
      assert u + [] == u && v + [] == v && d + [] == d;
    } else {
      NoViews(universe);
    }
  }

  /** The prepared layer's conditions are the layer's, in order. */
  lemma {:induction false} PreparedConditions(columns: map<string, Column>, selected: seq<CurrentParameter>,
      cs: seq<CurrentCondition>)
    requires PrepareConditions(columns, selected, cs).Ok?
    ensures var r := PrepareConditions(columns, selected, cs).value;
      |r| == |cs| && forall i :: 0 <= i < |r| ==>
        PrepareCondition(columns, selected, cs[i]) == Ok(r[i]) && r[i].condition == cs[i]
  {
    hide PrepareCells, ValueMap;
    var n := |cs| - 1;
    if n >= 0 { PreparedConditions(columns, selected, cs[..n]); }
  }

  lemma {:induction false} PreparedParts(l: LayerInput)
    requires PrepareLayer(l).Ok?
    ensures var p := PrepareLayer(l).value;
      && p.layer == l && p.columns == BaselineColumns(l) && p.plan == BuildPlan(p.columns, p.selected)
      && SelectParameters(l.parameters, StoredCodes(l.conditions)) == Ok(p.selected)
      && PrepareConditions(p.columns, p.selected, l.conditions) == Ok(p.conditions)
      && |p.conditions| == |l.conditions|
      && (forall i :: 0 <= i < |p.conditions| ==> p.conditions[i].condition == l.conditions[i])
      && (DistinctIds(l.conditions) ==> DistinctPrepared(p.conditions))
  {
    hide SelectParameters, StoredCodes, BuildPlan, PrepareConditions, TypesAgree, LayerBasis, BaselineColumns;
    var p := PrepareLayer(l).value;
    PreparedConditions(p.columns, p.selected, l.conditions);
  }

  /**
   * Nothing is lost: projecting the rows to the current side gives every current condition once,
   * with its canonical values over the selected columns; projecting to the baseline side gives
   * every baseline condition once, with its values over the baseline columns.
   */
  lemma {:induction false} RowsLoseNothing(l: LayerInput)
    requires PrepareLayer(l).Ok? && l.baseline.Some? && DistinctConditions(l.baseline.value.conditions)
    ensures CompareLayer(l).Ok?
    ensures var p, rows := PrepareLayer(l).value, CompareLayer(l).value.rows;
      && multiset(Collect(rows, ProjectCurrent)) == multiset(CurrentViews(ParameterCodes(p.selected), p.conditions))
      && multiset(Collect(rows, ProjectBaseline)) ==
        multiset(BaselineViews(p.columns.Keys, l.baseline.value.conditions))
  {
    hide PrepareLayer, BaselineRows, AddedRows, Collect, CurrentViews, BaselineViews, ParameterCodes, SortBy,
         PlanComplete, Unmatched, BuildPlan, AmbiguousCount, Counted;
    PreparedPlanComplete(l);
    PreparedParts(l);
    var p := PrepareLayer(l).value;
    var bs := l.baseline.value.conditions;
    var listed, extra := BaselineRows(l.layerKey, p.plan, bs, p.conditions),
      AddedRows(l.layerKey, p.plan, Unmatched(p.conditions, SourceIds(bs)));
    BaselineRowsRebuild(l.layerKey, p.columns, p.selected, bs, p.conditions);
    AddedRowsCurrent(l.layerKey, p.columns, p.selected, Unmatched(p.conditions, SourceIds(bs)));
    CollectConcat(listed, extra, ProjectCurrent);
    CollectConcat(listed, extra, ProjectBaseline);
    CollectSorted(listed + extra, RowOrder, ProjectCurrent);
    CollectSorted(listed + extra, RowOrder, ProjectBaseline);
    assert Collect(listed, ProjectBaseline) + [] == Collect(listed, ProjectBaseline);
  }
}
