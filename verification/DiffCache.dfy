/**
 * The caches of a project comparison and the trusted path for database rows
 * (backend/app/domain/backbone/diff.py).
 *
 * The program keys caches by `id(...)` of immutable objects. Such an object is an instance of a
 * class with constant fields here, so that equal values can be different keys.
 */
module DiffCache {
  import opened Results
  import opened Ordering
  import opened Json
  import opened BaselineSnapshot
  import opened BackboneDiff
  import opened DiffEngine
  import opened DiffLaws
  import V = Validation

  class SnapshotObject {
    const value: Snapshot
    constructor (value: Snapshot)
      ensures this.value == value
    {
      this.value := value;
    }
  }

  class SelectedObject {
    const items: seq<CurrentParameter>
    constructor (items: seq<CurrentParameter>)
      ensures this.items == items
    {
      this.items := items;
    }
  }

  // ---------------------------------------------------------------- a plan depends on the column shape only

  /** What the comparison plan uses of a column dictionary. */
  function Shape(columns: map<string, Column>): set<(string, V.ValueType, int)> {
    set code | code in columns :: (code, columns[code].valueType, columns[code].sortOrder)
  }

  lemma {:induction false} SameShapeSameColumn(a: map<string, Column>, b: map<string, Column>, code: string)
    requires Shape(a) == Shape(b)
    ensures code in a <==> code in b
    ensures code in a ==> a[code].valueType == b[code].valueType && a[code].sortOrder == b[code].sortOrder
  {
    if code in a {
      assert (code, a[code].valueType, a[code].sortOrder) in Shape(a);
      assert (code, a[code].valueType, a[code].sortOrder) in Shape(b);
    }
    if code in b {
      assert (code, b[code].valueType, b[code].sortOrder) in Shape(b);
      assert (code, b[code].valueType, b[code].sortOrder) in Shape(a);
    }
  }

  lemma {:induction false} InsertByEqualKeys(x: string, xs: seq<string>, f: string -> Key, g: string -> Key)
    requires f(x) == g(x) && forall i :: 0 <= i < |xs| ==> f(xs[i]) == g(xs[i])
    ensures Insert(x, xs, f) == Insert(x, xs, g)
    ensures forall i :: 0 <= i < |Insert(x, xs, f)| ==> f(Insert(x, xs, f)[i]) == g(Insert(x, xs, f)[i])
  {
    hide KeyLess;
    if |xs| > 0 { InsertByEqualKeys(x, xs[1..], f, g); }
  }

  lemma {:induction false} SortByEqualKeys(xs: seq<string>, f: string -> Key, g: string -> Key)
    requires forall i :: 0 <= i < |xs| ==> f(xs[i]) == g(xs[i])
    ensures SortBy(xs, f) == SortBy(xs, g)
    ensures forall i :: 0 <= i < |SortBy(xs, f)| ==> f(SortBy(xs, f)[i]) == g(SortBy(xs, f)[i])
  {
    hide Insert;
    if |xs| > 0 {
      SortByEqualKeys(xs[1..], f, g);
      InsertByEqualKeys(xs[0], SortBy(xs[1..], f), f, g);
    }
  }

  lemma {:induction false} SameShapeSameOrders(a: map<string, Column>, b: map<string, Column>,
      selected: seq<CurrentParameter>)
    requires Shape(a) == Shape(b)
    ensures a.Keys == b.Keys
    ensures forall code ::
      CoordinateOrder(a, selected)(code) == CoordinateOrder(b, selected)(code)
        && BaselineOrder(a)(code) == BaselineOrder(b)(code)
    ensures forall code :: PlanCoordinate(a, selected, code) == PlanCoordinate(b, selected, code)
    ensures TypesAgree(a, selected) <==> TypesAgree(b, selected)
  {
    hide Shape, FindParameter;
    forall code
      ensures (code in a <==> code in b)
        && (code in a ==> a[code].valueType == b[code].valueType && a[code].sortOrder == b[code].sortOrder) {
      SameShapeSameColumn(a, b, code);
    }
    forall code
      ensures CoordinateOrder(a, selected)(code) == CoordinateOrder(b, selected)(code)
      ensures BaselineOrder(a)(code) == BaselineOrder(b)(code)
      ensures PlanCoordinate(a, selected, code) == PlanCoordinate(b, selected, code)
    {
      assert ShownOrder(a, selected, code) == ShownOrder(b, selected, code);
    }
  }

  /** Column dictionaries of one shape have the same plan and pass the type check together. */
  lemma {:induction false} SameShapeSamePlan(a: map<string, Column>, b: map<string, Column>,
      selected: seq<CurrentParameter>)
    requires Shape(a) == Shape(b)
    ensures PlanOf(a, selected) == PlanOf(b, selected)
  {
    SameShapeSameOrders(a, b, selected);
    hide Shape, TypesAgree, CoordinateOrder, BaselineOrder, PlanCoordinate, SortBy, SortedTexts;
    SortByEqualKeys(SortedTexts(a.Keys + ParameterCodes(selected)), CoordinateOrder(a, selected),
      CoordinateOrder(b, selected));
    SortByEqualKeys(SortedTexts(ParameterCodes(selected)), CoordinateOrder(a, selected), CoordinateOrder(b, selected));
    SortByEqualKeys(SortedTexts(a.Keys), BaselineOrder(a), BaselineOrder(b));
    hide ParameterCodes, PlanOf;
    assert BuildPlan(a, selected).codes == BuildPlan(b, selected).codes;
    assert BuildPlan(a, selected).coordinates == BuildPlan(b, selected).coordinates;
    assert BuildPlan(a, selected) == BuildPlan(b, selected);
    hide BuildPlan;
    AgreeingPlans(a, b, selected);
  }

  lemma {:induction false} AgreeingPlans(a: map<string, Column>, b: map<string, Column>,
      selected: seq<CurrentParameter>)
    requires BuildPlan(a, selected) == BuildPlan(b, selected) && (TypesAgree(a, selected) <==> TypesAgree(b, selected))
    ensures PlanOf(a, selected) == PlanOf(b, selected)
  {
    hide BuildPlan, TypesAgree;
  }

  /** The cached plan is the one every dictionary of that shape would be given. */
  ghost predicate PlanHolds(shape: set<(string, V.ValueType, int)>, selected: seq<CurrentParameter>, plan: Plan) {
    forall columns: map<string, Column> :: Shape(columns) == shape ==> PlanOf(columns, selected) == Ok(plan)
  }

  lemma {:induction false} PlanHoldsFor(columns: map<string, Column>, selected: seq<CurrentParameter>, plan: Plan)
    requires PlanOf(columns, selected) == Ok(plan)
    ensures PlanHolds(Shape(columns), selected, plan)
  {
    hide Shape, PlanOf;
    forall other: map<string, Column> | Shape(other) == Shape(columns) ensures PlanOf(other, selected) == Ok(plan) {
      SameShapeSamePlan(other, columns, selected);
    }
  }

  // ---------------------------------------------------------------- selecting parameters

  function ActiveCodes(ps: seq<CurrentParameter>): set<string> { set i | 0 <= i < |ps| && ps[i].active :: ps[i].code }

  lemma {:induction false} FindParameterAt(ps: seq<CurrentParameter>, i: nat)
    requires DistinctParameters(ps) && i < |ps|
    ensures FindParameter(ps, ps[i].code) == Some(ps[i])
  {
    FindParameterMember(ps, ps[i].code);
    assert ps[i].code in ParameterCodes(ps);
    var k := IndexOf(ps, FindParameter(ps, ps[i].code).value);
  }

  lemma {:induction false} SelectedMembers(ps: seq<CurrentParameter>, stored: set<string>)
    ensures forall p :: p in Selected(ps, stored) <==> p in ps && (p.active || p.code in stored)
    ensures DistinctParameters(ps) ==> DistinctParameters(Selected(ps, stored))
  {
    var n := |ps| - 1;
    if n >= 0 {
      SelectedMembers(ps[..n], stored);
      var before := Selected(ps[..n], stored);
      assert ps == ps[..n] + [ps[n]];
      assert before + [] == before;
      if DistinctParameters(ps) {
        forall i | 0 <= i < |before| ensures before[i].code != ps[n].code {
          assert before[i] in before;
          var k := IndexOf(ps[..n], before[i]);
        }
      }
    }
  }

  lemma {:induction false} ParameterKeysDistinct(ps: seq<CurrentParameter>)
    requires DistinctParameters(ps)
    ensures DistinctKeys(ps, ParameterOrder)
  {
    forall i, j | 0 <= i < j < |ps| ensures ParameterOrder(ps[i]) != ParameterOrder(ps[j]) {
      assert ParameterOrder(ps[i])[1] == Txt(ps[i].code) && ParameterOrder(ps[j])[1] == Txt(ps[j].code);
    }
  }

  /** The looked-up parameters of the sorted codes, sorted, are the selection. */
  lemma {:induction false} LookedUpIsSelected(ps: seq<CurrentParameter>, stored: set<string>, codes: seq<string>,
      found: seq<CurrentParameter>)
    requires DistinctParameters(ps) && stored <= ParameterCodes(ps)
    requires codes == SortedTexts(ActiveCodes(ps) + stored)
    requires |found| == |codes| && forall i :: 0 <= i < |codes| ==> FindParameter(ps, codes[i]) == Some(found[i])
    ensures SortBy(found, ParameterOrder) == SortBy(Selected(ps, stored), ParameterOrder)
  {
    hide SortBy, SortedTexts, FindParameter, Selected, KeyLess, TextLess, ParameterOrder;
    SortedTextsProps(ActiveCodes(ps) + stored);
    SelectedMembers(ps, stored);
    FoundDistinct(ps, codes, found);
    ParameterKeysDistinct(found);
    ParameterKeysDistinct(Selected(ps, stored));
    SortProps(found, ParameterOrder);
    SortProps(Selected(ps, stored), ParameterOrder);
    forall p ensures p in found <==> p in Selected(ps, stored) {
      if p in found {
        var i := IndexOf(found, p);
        assert codes[i] in codes;
        FindParameterMember(ps, codes[i]);
        if codes[i] in ActiveCodes(ps) {
          var k :| 0 <= k < |ps| && ps[k].active && ps[k].code == codes[i];
          FindParameterAt(ps, k);
        }
      }
      if p in Selected(ps, stored) {
        var k := IndexOf(ps, p);
        FindParameterAt(ps, k);
        assert p.code in codes by { if p.active { assert ps[k].code in ActiveCodes(ps); } }
        var i := IndexOf(codes, p.code);
        assert found[i] == p;
      }
    }
    StrictlySortedUnique(SortBy(found, ParameterOrder), SortBy(Selected(ps, stored), ParameterOrder), ParameterOrder);
  }

  lemma {:induction false} FoundDistinct(ps: seq<CurrentParameter>, codes: seq<string>, found: seq<CurrentParameter>)
    requires |found| == |codes| && forall i :: 0 <= i < |codes| ==> FindParameter(ps, codes[i]) == Some(found[i])
    requires forall i, j :: 0 <= i < j < |codes| ==> TextLess(codes[i], codes[j])
    ensures DistinctParameters(found)
  {
    hide FindParameter, TextLess;
    forall i | 0 <= i < |found| ensures found[i].code == codes[i] { FindParameterMember(ps, codes[i]); }
    forall i, j | 0 <= i < j < |found| ensures found[i].code != found[j].code { TextTotal(codes[i], codes[j]); }
  }

  // ---------------------------------------------------------------- the cache

  /** A layer with the identity of its baseline snapshot object. */
  datatype LayerObject = LayerObject(layer: LayerInput, baseline: SnapshotObject?)

  predicate SameBaseline(o: LayerObject) {
    o.layer.baseline == if o.baseline == null then None else Some(o.baseline.value)
  }

  class PrepareCache {
    var baselineColumns: map<SnapshotObject, map<string, Column>>
    var baselinePayload: map<SnapshotObject, Json>
    var selectedByUniverse: map<(seq<CurrentParameter>, set<string>), SelectedObject>
    var parameterPayload: map<seq<CurrentParameter>, seq<Json>>
    var planByShape: map<(set<(string, V.ValueType, int)>, SelectedObject), Plan>

    /** Every entry is what would be computed without the cache. */
    ghost predicate Valid()
      reads this
    {
      && (forall o :: o in baselineColumns ==> baselineColumns[o] == ColumnMap(o.value.columns))
      && (forall o :: o in baselinePayload ==> baselinePayload[o] == Serialize(o.value))
      && (forall k :: k in selectedByUniverse ==> SelectParameters(k.0, k.1) == Ok(selectedByUniverse[k].items))
      && (forall k :: k in parameterPayload ==> parameterPayload[k] == ParametersOut(k))
      && (forall k :: k in planByShape ==> PlanHolds(k.0, k.1.items, planByShape[k]))
    }

    constructor ()
      ensures Valid()
    {
      baselineColumns, baselinePayload, selectedByUniverse, parameterPayload, planByShape := map[], map[], map[],
      map[], map[];
    }

    method ColumnsOf(o: SnapshotObject) returns (columns: map<string, Column>)
      requires Valid()
      modifies this
      ensures Valid() && columns == ColumnMap(o.value.columns)
    {
      hide ColumnMap, Serialize, SelectParameters, ParametersOut, PlanHolds;
      if o in baselineColumns { return baselineColumns[o]; }
      columns := ColumnMap(o.value.columns);
      baselineColumns := baselineColumns[o := columns];
    }

    method PayloadOf(o: SnapshotObject) returns (payload: Json)
      requires Valid()
      modifies this
      ensures Valid() && payload == Serialize(o.value)
    {
      hide ColumnMap, Serialize, SelectParameters, ParametersOut, PlanHolds;
      if o in baselinePayload { return baselinePayload[o]; }
      payload := Serialize(o.value);
      baselinePayload := baselinePayload[o := payload];
    }

    method ParameterPayloadOf(selected: seq<CurrentParameter>) returns (payload: seq<Json>)
      requires Valid()
      modifies this
      ensures Valid() && payload == ParametersOut(selected)
    {
      hide ColumnMap, Serialize, SelectParameters, ParametersOut, PlanHolds;
      if selected in parameterPayload { return parameterPayload[selected]; }
      payload := ParametersOut(selected);
      parameterPayload := parameterPayload[selected := payload];
    }

    /** _selected_current_descriptors: looks the sorted codes up one by one. */
    method SelectedOf(ps: seq<CurrentParameter>, stored: set<string>) returns (r: Result<SelectedObject, DiffError>)
      requires Valid() && DistinctParameters(ps)
      modifies this
      ensures Valid()
      ensures SelectParameters(ps, stored) == match r case Ok(o) => Ok(o.items) case Err(e) => Err(e)
    {
      hide ColumnMap, Serialize, ParametersOut, PlanHolds, SortBy, SortedTexts, FindParameter, Selected,
           DistinctParameters;
      var universeKey := (ps, stored);
      if universeKey in selectedByUniverse { return Ok(selectedByUniverse[universeKey]); }
      var codes := SortedTexts(ActiveCodes(ps) + stored);
      SortedTextsProps(ActiveCodes(ps) + stored);
      var selected: seq<CurrentParameter> := [];
      var i := 0;
      while i < |codes|
        invariant Valid() && i <= |codes| && |selected| == i
        invariant forall k :: 0 <= k < i ==> FindParameter(ps, codes[k]) == Some(selected[k])
      {
        var parameter := FindParameter(ps, codes[i]);
        FindParameterMember(ps, codes[i]);
        if parameter.None? {
          assert codes[i] in codes;
          return Err(Unresolved);
        }
        selected := selected + [parameter.value];
        i := i + 1;
      }
      forall code | code in stored ensures code in ParameterCodes(ps) {
        assert code in codes;
        var k := IndexOf(codes, code);
        FindParameterMember(ps, code);
      }
      LookedUpIsSelected(ps, stored, codes, selected);
      var o := new SelectedObject(SortBy(selected, ParameterOrder));
      selectedByUniverse := selectedByUniverse[universeKey := o];
      r := Ok(o);
    }

    /** A hit skips the type check and the sorting; the plan is the one that would be rebuilt. */
    method PlanOfShape(columns: map<string, Column>, selected: SelectedObject) returns (r: Result<Plan, DiffError>)
      requires Valid()
      modifies this
      ensures Valid() && r == PlanOf(columns, selected.items)
    {
      hide ColumnMap, Serialize, SelectParameters, ParametersOut, BuildPlan, TypesAgree, Shape;
      var planKey := (Shape(columns), selected);
      if planKey in planByShape {
        assert PlanHolds(planKey.0, planKey.1.items, planByShape[planKey]);
        return Ok(planByShape[planKey]);
      }
      hide PlanHolds;
      if !TypesAgree(columns, selected.items) { return Err(BasisInvalid); }
      var plan := BuildPlan(columns, selected.items);
      PlanHoldsFor(columns, selected.items, plan);
      planByShape := planByShape[planKey := plan];
      r := Ok(plan);
    }

    /** _prepare_layer: with any valid cache the result is the one of a fresh cache. */
    method Prepare(o: LayerObject) returns (r: Result<Prepared, DiffError>)
      requires Valid() && SameBaseline(o) && DistinctParameters(o.layer.parameters)
      modifies this
      ensures Valid() && r == PrepareLayer(o.layer)
    {
      hide Valid, ColumnMap, Serialize, SelectParameters, ParametersOut, PlanOf, StoredCodes, PrepareConditions,
           PayloadConditions;
      var l := o.layer;
      var columns: map<string, Column> := map[];
      if o.baseline != null { columns := ColumnsOf(o.baseline); }
      var selected := SelectedOf(l.parameters, StoredCodes(l.conditions));
      if selected.Err? { return Err(selected.error); }
      var plan := PlanOfShape(columns, selected.value);
      if plan.Err? { return Err(plan.error); }
      var conditions := PrepareConditions(columns, selected.value.items, l.conditions);
      if conditions.Err? { return Err(conditions.error); }
      var baselinePayload: Option<Json> := None;
      if o.baseline != null {
        var payload := PayloadOf(o.baseline);
        baselinePayload := Some(payload);
      }
      var parameters := ParameterPayloadOf(selected.value.items);
      var basis := Basis(baselinePayload, PayloadConditions(conditions.value), l.source, parameters, l.layerKey,
        l.sortOrder);
      r := Ok(Prepared(l, basis, columns, selected.value.items, conditions.value, plan.value));
    }
  }

  // ---------------------------------------------------------------- a whole project

  function LayerOrder(o: LayerObject): Key { [Num(o.layer.sortOrder), Txt(o.layer.layerKey)] }

  /** Every layer compared alone, with fresh caches; the first failure counts. */
  function CompareEach(os: seq<LayerObject>): Result<seq<LayerResult>, DiffError> {
    if |os| == 0 then Ok([])
    else
      var before :- CompareEach(os[..|os| - 1]);
      var last :- CompareLayer(os[|os| - 1].layer);
      Ok(before + [last])
  }

  function PrepareEach(os: seq<LayerObject>): Result<seq<Prepared>, DiffError> {
    if |os| == 0 then Ok([])
    else
      var before :- PrepareEach(os[..|os| - 1]);
      var last :- PrepareLayer(os[|os| - 1].layer);
      Ok(before + [last])
  }

  lemma {:induction false} PrepareEachNext(os: seq<LayerObject>, i: nat)
    requires i < |os|
    ensures PrepareEach(os[..i + 1]) == match PrepareEach(os[..i])
      case Err(e) => Err(e)
      case Ok(before) => match PrepareLayer(os[i].layer) case Err(e) => Err(e) case Ok(last) => Ok(before + [last])
  {
    hide PrepareLayer;
    assert os[..i + 1][..i] == os[..i];
  }

  lemma {:induction false} CompareFollowsPrepare(os: seq<LayerObject>)
    ensures PrepareEach(os).Err? ==> CompareEach(os) == Err(PrepareEach(os).error)
    ensures PrepareEach(os).Ok? ==> CompareEach(os).Ok? && |CompareEach(os).value| == |PrepareEach(os).value| == |os|
    ensures PrepareEach(os).Ok? ==> forall i :: 0 <= i < |os| ==>
      PrepareLayer(os[i].layer) == Ok(PrepareEach(os).value[i])
        && CompareLayer(os[i].layer) == Ok(CompareEach(os).value[i])
  {
    hide PrepareLayer, ComparePrepared;
    var n := |os| - 1;
    if n >= 0 { CompareFollowsPrepare(os[..n]); }
  }

  /** Prepares all layers with one cache. */
  method PrepareAllLayers(ordered: seq<LayerObject>) returns (r: Result<seq<Prepared>, DiffError>)
    requires forall i :: 0 <= i < |ordered| ==>
      SameBaseline(ordered[i]) && DistinctParameters(ordered[i].layer.parameters)
    ensures r == PrepareEach(ordered)
  {
    hide PrepareLayer, SameBaseline, DistinctParameters;
    var cache := new PrepareCache();
    var prepared: seq<Prepared> := [];
    var i := 0;
    while i < |ordered|
      invariant i <= |ordered| && cache.Valid()
      invariant PrepareEach(ordered[..i]) == Ok(prepared)
    {
      PrepareEachNext(ordered, i);
      var p := cache.Prepare(ordered[i]);
      if p.Err? {
        PrepareFailsAt(ordered, i + 1);
        return Err(p.error);
      }
      prepared := prepared + [p.value];
      i := i + 1;
    }
    assert ordered[..i] == ordered;
    r := Ok(prepared);
  }

  lemma {:induction false} PrepareFailsAt(os: seq<LayerObject>, i: nat)
    requires i <= |os| && PrepareEach(os[..i]).Err?
    ensures PrepareEach(os) == PrepareEach(os[..i])
    decreases |os| - i
  {
    hide PrepareLayer;
    if i < |os| {
      PrepareEachNext(os, i);
      PrepareFailsAt(os, i + 1);
    } else {
      assert os[..i] == os;
    }
  }

  ghost predicate ValidObjects(layers: seq<LayerObject>) {
    forall i :: 0 <= i < |layers| ==> SameBaseline(layers[i]) && ValidLayer(layers[i].layer)
  }

  /**
   * compare_backbone: with one cache shared by all layers, a project compares like its layers
   * one by one; it fails exactly when one of them does, with the first one's error.
   */
  method CompareProject(layers: seq<LayerObject>) returns (r: Result<seq<LayerResult>, DiffError>)
    requires ValidObjects(layers)
    ensures r == CompareEach(SortBy(layers, LayerOrder))
  {
    hide SortBy, CompareEach, PrepareEach, PrepareLayer, ComparePrepared, CompareLayer, StrictlySorted, WellFormed,
         KeyLess, PlanComplete, DistinctPrepared, DistinctIds, DistinctParameters, SortedCurrentCells, Sorted,
         LayerOrder;
    var ordered := SortBy(layers, LayerOrder);
    SortProps(layers, LayerOrder);
    forall i | 0 <= i < |ordered|
      ensures SameBaseline(ordered[i]) && DistinctParameters(ordered[i].layer.parameters)
        && DistinctIds(ordered[i].layer.conditions) {
      MemberOfPermutation(layers, ordered, i);
      var k := IndexOf(layers, ordered[i]);
    }
    var prepared := PrepareAllLayers(ordered);
    CompareFollowsPrepare(ordered);
    if prepared.Err? { return Err(prepared.error); }
    var results: seq<LayerResult> := [];
    ghost var expected := CompareEach(ordered).value;
    var i := 0;
    while i < |ordered|
      invariant i <= |ordered| && results == expected[..i]
    {
      ComparedAlone(ordered[i].layer, prepared.value[i]);
      var result := ComparePreparedLayer(prepared.value[i]);
      results := results + [result];
      i := i + 1;
    }
    assert expected[..i] == expected;
    r := Ok(results);
  }

  lemma {:induction false} ComparedAlone(l: LayerInput, p: Prepared)
    requires PrepareLayer(l) == Ok(p) && DistinctIds(l.conditions)
    ensures PlanComplete(p.plan) && DistinctPrepared(p.conditions) && CompareLayer(l) == Ok(ComparePrepared(p))
  {
    hide PrepareLayer, ComparePrepared, PlanComplete, DistinctPrepared, BuildPlan;
    PreparedPlanComplete(l);
    PreparedParts(l);
  }

  // ---------------------------------------------------------------- rows already ordered by the database

  datatype CellRow = CellRow(conditionId: int, code: string, value: Option<string>)

  predicate RowBefore(a: CellRow, b: CellRow) {
    a.conditionId < b.conditionId || (a.conditionId == b.conditionId && TextLess(a.code, b.code))
  }

  /** Positive ids, non-empty codes, strictly ascending by id and code. */
  predicate OrderedRows(rows: seq<CellRow>) {
    && (forall i :: 0 <= i < |rows| ==> rows[i].conditionId > 0 && rows[i].code != "")
    && (forall i :: 0 < i < |rows| ==> RowBefore(rows[i - 1], rows[i]))
  }

  function CellsOfCondition(rows: seq<CellRow>, id: int): seq<CurrentCell> {
    if |rows| == 0 then []
    else
      CellsOfCondition(rows[..|rows| - 1], id)
        + (if rows[|rows| - 1].conditionId == id
          then [CurrentCell(rows[|rows| - 1].code, rows[|rows| - 1].value)] else [])
  }

  function ConditionIds(rows: seq<CellRow>): set<int> { set i | 0 <= i < |rows| :: rows[i].conditionId }

  lemma {:induction false} CellsNext(rows: seq<CellRow>, i: nat, id: int)
    requires i < |rows|
    ensures CellsOfCondition(rows[..i + 1], id) ==
      CellsOfCondition(rows[..i], id)
        + (if rows[i].conditionId == id then [CurrentCell(rows[i].code, rows[i].value)] else [])
  {
    assert rows[..i + 1][..i] == rows[..i];
  }

  lemma {:induction false} NoCellsYet(rows: seq<CellRow>, id: int)
    requires forall i :: 0 <= i < |rows| ==> rows[i].conditionId != id
    ensures CellsOfCondition(rows, id) == []
  {
    if |rows| > 0 { NoCellsYet(rows[..|rows| - 1], id); }
  }

  lemma {:induction false} IdsNext(rows: seq<CellRow>, i: nat)
    requires i < |rows|
    ensures ConditionIds(rows[..i + 1]) == ConditionIds(rows[..i]) + {rows[i].conditionId}
  {
    forall id | id in ConditionIds(rows[..i + 1]) ensures id in ConditionIds(rows[..i]) + {rows[i].conditionId} {
      var k :| 0 <= k < i + 1 && rows[..i + 1][k].conditionId == id;
      if k < i { assert rows[..i][k].conditionId == id; }
    }
    forall id | id in ConditionIds(rows[..i]) ensures id in ConditionIds(rows[..i + 1]) {
      var k :| 0 <= k < i && rows[..i][k].conditionId == id;
      assert rows[..i + 1][k].conditionId == id;
    }
    assert rows[..i + 1][i] == rows[i];
  }

  lemma {:induction false} OrderedNext(rows: seq<CellRow>, i: nat)
    requires i < |rows| && OrderedRows(rows[..i])
    ensures OrderedRows(rows[..i + 1]) <==>
      rows[i].conditionId > 0 && rows[i].code != "" && (i > 0 ==> RowBefore(rows[i - 1], rows[i]))
  {
    hide RowBefore;
    var longer := rows[..i + 1];
    assert longer[i] == rows[i] && (i > 0 ==> longer[i - 1] == rows[i - 1]);
    if rows[i].conditionId > 0 && rows[i].code != "" && (i > 0 ==> RowBefore(rows[i - 1], rows[i])) {
      forall k | 0 <= k < |longer| ensures longer[k].conditionId > 0 && longer[k].code != "" {
        if k < i { assert longer[k] == rows[..i][k]; }
      }
      forall k | 0 < k < |longer| ensures RowBefore(longer[k - 1], longer[k]) {
        if k < i { assert longer[k] == rows[..i][k] && longer[k - 1] == rows[..i][k - 1]; }
      }
    }
  }

  lemma {:induction false} OrderedPrefix(rows: seq<CellRow>, i: nat)
    requires i <= |rows| && OrderedRows(rows)
    ensures OrderedRows(rows[..i])
  {
    hide RowBefore;
    forall k | 0 < k < i ensures RowBefore(rows[..i][k - 1], rows[..i][k]) { assert RowBefore(rows[k - 1], rows[k]); }
  }

  /** Ids only grow, so a new id has no cells before. */
  lemma {:induction false} IdsGrow(rows: seq<CellRow>, i: nat)
    requires OrderedRows(rows) && i < |rows|
    ensures forall k :: 0 <= k <= i ==> rows[k].conditionId <= rows[i].conditionId
  {
    if i > 0 {
      IdsGrow(rows, i - 1);
      assert RowBefore(rows[i - 1], rows[i]);
    }
  }

  /**
   * _current_cells_by_condition_from_database_rows: accepts exactly the ordered rows, and then
   * groups all cells of each condition in row order.
   */
  method CellsByCondition(rows: seq<CellRow>) returns (r: Result<map<int, seq<CurrentCell>>, DiffError>)
    ensures r.Ok? <==> OrderedRows(rows)
    ensures r.Ok? ==> r.value.Keys == ConditionIds(rows) && forall id :: id in r.value ==>
      r.value[id] == CellsOfCondition(rows, id)
    ensures r.Err? ==> r.error == BasisInvalid
  {
    hide OrderedRows, CellsOfCondition, ConditionIds, TextLess;
    var grouped: map<int, seq<CurrentCell>> := map[];
    var currentId: Option<int> := None;
    var currentCells: seq<CurrentCell> := [];
    var previousCode: Option<string> := None;
    NothingRead(rows);
    var i := 0;
    while i < |rows|
      invariant i <= |rows| && OrderedRows(rows[..i])
      invariant currentId.None? <==> i == 0
      invariant i > 0 ==> currentId == Some(rows[i - 1].conditionId) && previousCode == Some(rows[i - 1].code)
      invariant i > 0 ==>
        currentCells == CellsOfCondition(rows[..i], rows[i - 1].conditionId) && rows[i - 1].conditionId !in grouped
      invariant grouped.Keys == ConditionIds(rows[..i]) - (if i > 0 then {rows[i - 1].conditionId} else {})
      invariant forall id :: id in grouped ==> grouped[id] == CellsOfCondition(rows[..i], id)
    {
      var row := rows[i];
      OrderedNext(rows, i);
      IdsNext(rows, i);
      PositiveId(rows, i);
      if OrderedRows(rows) { OrderedPrefix(rows, i + 1); }
      if currentId != Some(row.conditionId) {
        if row.conditionId <= 0 { return Err(BasisInvalid); }
        if currentId.Some? && row.conditionId <= currentId.value { return Err(BasisInvalid); }
        NewIdUnseen(rows, i);
        if currentId.Some? { grouped := grouped[currentId.value := currentCells]; }
        currentId := Some(row.conditionId);
        currentCells := [];
        previousCode := None;
      }
      if row.code == "" { return Err(BasisInvalid); }
      if previousCode.Some? && (row.code == previousCode.value || TextLess(row.code, previousCode.value)) {
        TextTotal(row.code, previousCode.value);
        return Err(BasisInvalid);
      }
      if previousCode.Some? { TextTotal(row.code, previousCode.value); }
      forall id ensures CellsOfCondition(rows[..i + 1], id) == CellsOfCondition(rows[..i],
        id) + (if row.conditionId == id then [CurrentCell(row.code, row.value)] else []) {
        CellsNext(rows, i, id);
      }
      forall id ensures CellsOfCondition(rows[..i], id) + [] == CellsOfCondition(rows[..i], id) {}
      currentCells := currentCells + [CurrentCell(row.code, row.value)];
      previousCode := Some(row.code);
      i := i + 1;
    }
    assert rows[..i] == rows;
    if currentId.Some? { grouped := grouped[currentId.value := currentCells]; }
    LastIdListed(rows);
    r := Ok(grouped);
  }

  lemma {:induction false} NothingRead(rows: seq<CellRow>)
    ensures OrderedRows(rows[..0]) && ConditionIds(rows[..0]) == {}
  {
  }

  lemma {:induction false} PositiveId(rows: seq<CellRow>, i: nat)
    requires i <= |rows| && OrderedRows(rows[..i])
    ensures i > 0 ==> rows[i - 1].conditionId > 0
  {
    if i > 0 { assert rows[..i][i - 1] == rows[i - 1]; }
  }

  lemma {:induction false} LastIdListed(rows: seq<CellRow>)
    ensures |rows| > 0 ==> rows[|rows| - 1].conditionId in ConditionIds(rows)
  {
  }

  lemma {:induction false} NewIdUnseen(rows: seq<CellRow>, i: nat)
    requires i < |rows| && OrderedRows(rows[..i]) && (i > 0 ==> rows[i].conditionId > rows[i - 1].conditionId)
    ensures rows[i].conditionId !in ConditionIds(rows[..i]) && CellsOfCondition(rows[..i], rows[i].conditionId) == []
    ensures i > 0 ==> rows[i - 1].conditionId in ConditionIds(rows[..i])
  {
    if i > 0 {
      IdsGrow(rows[..i], i - 1);
      assert rows[..i][i - 1] == rows[i - 1];
    }
    NoCellsYet(rows[..i], rows[i].conditionId);
  }

  /** The checking constructor of a condition: distinct codes, sorted cells. */
  function CheckedCells(cells: seq<CurrentCell>): Result<seq<CurrentCell>, DiffError> {
    if DistinctKeys(cells, CurrentCellKey) && forall i :: 0 <= i < |cells| ==>
      cells[i].code != "" then Ok(SortBy(cells, CurrentCellKey)) else Err(BasisInvalid)
  }

  lemma {:induction false} GroupedCellsSorted(rows: seq<CellRow>, id: int)
    requires OrderedRows(rows)
    ensures var cells := CellsOfCondition(rows, id);
      && SortedCurrentCells(cells) && (forall i :: 0 <= i < |cells| ==> cells[i].code != "")
      && (cells != [] && rows[|rows| - 1].conditionId == id ==> cells[|cells| - 1].code == rows[|rows| - 1].code)
      && (cells != [] ==> id <= rows[|rows| - 1].conditionId)
  {
    hide TextLess;
    var n := |rows| - 1;
    if n >= 0 {
      OrderedPrefix(rows, n);
      GroupedCellsSorted(rows[..n], id);
      var before := CellsOfCondition(rows[..n], id);
      if rows[n].conditionId == id && before != [] {
        assert RowBefore(rows[n - 1], rows[n]);
        assert before[|before| - 1].code == rows[n - 1].code;
        forall k | 0 <= k < |before| ensures TextLess(before[k].code, rows[n].code) {
          if k < |before| - 1 { TextTransitive(before[k].code, before[|before| - 1].code, rows[n].code); }
        }
      } else if n > 0 {
        assert RowBefore(rows[n - 1], rows[n]);
      }
    }
  }

  /** The trusted path gives each condition the very cells the checking constructor would. */
  lemma {:induction false} TrustedCellsAreChecked(rows: seq<CellRow>, id: int)
    requires OrderedRows(rows)
    ensures CheckedCells(CellsOfCondition(rows, id)) == Ok(CellsOfCondition(rows, id))
  {
    hide OrderedRows, CellsOfCondition, KeyLess, TextLess, SortBy;
    GroupedCellsSorted(rows, id);
    var cells := CellsOfCondition(rows, id);
    forall i, j | 0 <= i < j < |cells| ensures KeyLess(CurrentCellKey(cells[i]), CurrentCellKey(cells[j])) {
      CurrentKeyLess(cells[i], cells[j]);
    }
    StrictIsSorted(cells, CurrentCellKey);
    SortFixed(cells, CurrentCellKey);
  }

  lemma {:induction false} CurrentKeyLess(a: CurrentCell, b: CurrentCell)
    requires TextLess(a.code, b.code)
    ensures KeyLess(CurrentCellKey(a), CurrentCellKey(b))
  {
    TextTotal(a.code, b.code);
  }
}
