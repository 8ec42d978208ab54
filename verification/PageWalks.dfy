/**
 * Pages of a comparison followed through cursor tokens (backend/app/features/backbone_diff/provider.py,
 * service.py): every token that is handed out is read back, and every item is collected exactly once
 * unless a page cannot be built.
 */
module PageWalks {
  import opened Results
  import opened Ordering
  import opened Json
  import opened JsonSizes
  import opened Paging
  import opened BaselineSnapshot
  import opened BackboneDiff
  import opened DiffEngine
  import opened DiffLaws
  import opened DiffOrders
  import opened DiffViews
  import opened DiffViewLaws
  import T = Tokens

  // ---------------------------------------------------------------- sort keys in tokens

  function JsonAtom(v: Json): Atom { match v case Int(n) => Num(n) case Str(s) => Txt(s) case _ => Num(0) }

  function JsonKey(values: seq<Json>): (r: Key)
    ensures |r| == |values| && forall i :: 0 <= i < |values| ==> r[i] == JsonAtom(values[i])
  {
    seq(|values|, i requires 0 <= i < |values| => JsonAtom(values[i]))
  }

  /** A key that a cursor of the scope may carry. */
  predicate ValidKey(scope: T.Scope, key: Key) { T.ValidSortKey(T.KindOf(scope), KeyJson(key)) }

  /** Decoding a request's cursor and checking it against the request's scope. */
  function ReadCursor(scope: T.Scope, token: Option<string>): Result<Option<Key>, ViewError> {
    match token
    case None => Ok(None)
    case Some(t) =>
      match T.DecodeCursor(t)
      case Err(_) => Err(InvalidCursor)
      case Ok(c) => if c.kind == T.KindOf(scope) && c.scope == scope then Ok(Some(JsonKey(c.sortKey)))
        else Err(InvalidCursor)
  }

  /** A handed-out cursor is read back exactly when its token is short. */
  lemma {:induction false} CursorReadBack(scope: T.Scope, key: Key)
    requires T.ValidScope(scope) && ValidKey(scope, key)
    ensures ReadCursor(scope, Some(T.EncodeCursor(CursorFor(scope, key)))) == if CursorShort(scope, key)
      then Ok(Some(key)) else Err(InvalidCursor)
  {
    hide T.EncodeCursor, T.DecodeCursor, T.ValidScope, T.ValidSortKey, T.KindOf;
    var c := CursorFor(scope, key);
    var t := T.EncodeCursor(c);
    T.CursorTokens(t, c);
    if T.DecodeCursor(t).Ok? { T.CursorTokens(t, T.DecodeCursor(t).value); }
    assert JsonKey(KeyJson(key)) == key;
  }

  /** In bytes: a cursor's token is short exactly when the JSON text behind it has at most 3072 bytes. */
  lemma {:induction false} ShortCursorBytes(scope: T.Scope, key: Key)
    ensures CursorShort(scope, key) <==> Size(Obj(T.CursorFields(CursorFor(scope, key)))) <= 3072
  {
    hide T.CursorFields, T.EncodePayload;
    T.TokenFits(T.CursorFields(CursorFor(scope, key)));
  }

  // ---------------------------------------------------------------- walks

  type Pager<I> = (Option<Key>, nat) -> Result<KeysetPage<I>, ViewError>

  /** Pages followed from the start with the cursors as keys, each page with its own limit. */
  function FollowKeys<I>(pageOf: Pager<I>, limits: seq<nat>): Result<Walk<I>, ViewError> {
    if |limits| == 0 then Ok(Walk([], None, false))
    else
      var before :- FollowKeys(pageOf, limits[..|limits| - 1]);
      if before.done then Ok(before)
      else
        var page :- pageOf(before.cursor, limits[|limits| - 1]);
        Ok(Walk(before.collected + page.items, page.next, page.next.None?))
  }

  datatype TokenWalk<I> = TokenWalk(collected: seq<I>, token: Option<string>, done: bool)

  function TokenOf(scope: T.Scope, next: Option<Key>): Option<string> {
    match next case None => None case Some(key) => Some(T.EncodeCursor(CursorFor(scope, key)))
  }

  /** The same walk as a client makes it: it sends back the token of the last page. */
  function FollowTokens<I>(scope: T.Scope, pageOf: Pager<I>, limits: seq<nat>): Result<TokenWalk<I>, ViewError> {
    if |limits| == 0 then Ok(TokenWalk([], None, false))
    else
      var before :- FollowTokens(scope, pageOf, limits[..|limits| - 1]);
      if before.done then Ok(before)
      else
        var cursor :- ReadCursor(scope, before.token);
        var page :- pageOf(cursor, limits[|limits| - 1]);
        Ok(TokenWalk(before.collected + page.items, TokenOf(scope, page.next), page.next.None?))
  }

  /** Every page hands out a cursor that may be built and decoded, if any. */
  ghost predicate GoodPages<I>(scope: T.Scope, pageOf: Pager<I>) {
    forall cursor: Option<Key>, limit: nat :: pageOf(cursor, limit).Ok? && pageOf(cursor, limit).value.next.Some? ==>
      ValidKey(scope, pageOf(cursor, limit).value.next.value)
        && CursorShort(scope, pageOf(cursor, limit).value.next.value)
  }

  function WithToken<I>(scope: T.Scope, w: Walk<I>): TokenWalk<I> {
    TokenWalk(w.collected, TokenOf(scope, w.cursor), w.done)
  }

  /** Every token that is handed out is read back: following tokens equals following keys. */
  lemma {:induction false} TokensFollowKeys<I>(scope: T.Scope, pageOf: Pager<I>, limits: seq<nat>)
    requires T.ValidScope(scope) && GoodPages(scope, pageOf)
    ensures var w := FollowKeys(pageOf, limits);
      && (w.Ok? && w.value.cursor.Some? ==>
        ValidKey(scope, w.value.cursor.value) && CursorShort(scope, w.value.cursor.value))
      && FollowTokens(scope, pageOf, limits) == match w case Ok(v) => Ok(WithToken(scope, v)) case Err(e) => Err(e)
  {
    hide T.EncodeCursor, ReadCursor, CursorShort, T.ValidScope, ValidKey, CursorFor;
    if |limits| > 0 {
      var before := limits[..|limits| - 1];
      TokensFollowKeys(scope, pageOf, before);
      var w := FollowKeys(pageOf, before);
      if w.Ok? && w.value.cursor.Some? { CursorReadBack(scope, w.value.cursor.value); }
      NoCursor(scope);
    }
  }

  lemma {:induction false} NoCursor(scope: T.Scope)
    ensures ReadCursor(scope, None) == Ok(None)
  {
  }

  // ---------------------------------------------------------------- valid keys

  lemma {:induction false} AfterMembers<T>(xs: seq<T>, key: T -> Key, cursor: Option<Key>)
    ensures forall x :: x in After(xs, key, cursor) ==> x in xs
    ensures |After(xs, key, cursor)| <= |xs|
  {
    hide KeyLess;
    if |xs| > 0 { AfterMembers(xs[1..], key, cursor); }
  }

  predicate RowKeyed(r: Row) { r.effectiveIndex >= 0 && r.identity > 0 }

  lemma {:induction false} LineageRowsKeyed(key: string, plan: Plan, b: Condition, cs: seq<PreparedCondition>)
    requires PlanComplete(plan) && ValidHeader(b)
    requires forall i :: 0 <= i < |cs| ==> cs[i].condition.id > 0 && cs[i].condition.conditionIndex >= 0
    ensures forall i :: 0 <= i < |LineageRows(key, plan, b, cs)| ==> RowKeyed(LineageRows(key, plan, b, cs)[i])
  {
    hide PlanComplete, Descendants, SortBy, MatchedCells, AddedCells, RemovedCells, MetadataChanges;
    var found := Descendants(cs, b.sourceId);
    var sorted := SortBy(found, PreparedOrder);
    DescendantsMembers(cs, b.sourceId);
    SortProps(found, PreparedOrder);
    forall i | 0 <= i < |sorted| ensures sorted[i].condition.id > 0 && sorted[i].condition.conditionIndex >= 0 {
      assert sorted[i] in sorted;
      var k := IndexOf(cs, sorted[i]);
    }
  }

  lemma {:induction false} BaselineRowsKeyed(key: string, plan: Plan, bs: seq<Condition>, cs: seq<PreparedCondition>)
    requires PlanComplete(plan) && forall i :: 0 <= i < |bs| ==> ValidHeader(bs[i])
    requires forall i :: 0 <= i < |cs| ==> cs[i].condition.id > 0 && cs[i].condition.conditionIndex >= 0
    ensures forall i :: 0 <= i < |BaselineRows(key, plan, bs, cs)| ==> RowKeyed(BaselineRows(key, plan, bs, cs)[i])
  {
    hide PlanComplete, LineageRows, ValidHeader, RowKeyed;
    if |bs| > 0 {
      BaselineRowsKeyed(key, plan, bs[..|bs| - 1], cs);
      LineageRowsKeyed(key, plan, bs[|bs| - 1], cs);
    }
  }

  lemma {:induction false} UnmatchedRowsKeyed(key: string, plan: Plan, cs: seq<PreparedCondition>, sources: set<int>)
    requires PlanComplete(plan) && forall i :: 0 <= i < |cs| ==>
      cs[i].condition.id > 0 && cs[i].condition.conditionIndex >= 0
    ensures forall i :: 0 <= i < |AddedRows(key, plan, Unmatched(cs, sources))| ==>
      RowKeyed(AddedRows(key, plan, Unmatched(cs, sources))[i])
  {
    hide PlanComplete, Unmatched, Derived, AddedCells;
    var u := Unmatched(cs, sources);
    UnmatchedMembers(cs, sources);
    forall i | 0 <= i < |u| ensures u[i].condition.id > 0 && u[i].condition.conditionIndex >= 0 {
      assert u[i] in u;
      var k := IndexOf(cs, u[i]);
    }
  }

  /** Rows of a valid layer have keys a cursor may carry. */
  lemma {:induction false} RowsKeyed(l: LayerInput)
    requires ValidLayer(l) && CompareLayer(l).Ok?
    ensures forall i :: 0 <= i < |CompareLayer(l).value.rows| ==> RowKeyed(CompareLayer(l).value.rows[i])
  {
    hide PrepareLayer, BaselineRows, AddedRows, PlanComplete, SortBy, BuildPlan, AmbiguousCount, Counted, Unmatched,
         KeyLess, Sorted, StrictlySorted, RowKeyed, StoredCell, SortedCells, ValidColumn, SortedCurrentCells, RowOrder;
    PreparedPlanComplete(l);
    PreparedParts(l);
    if l.baseline.Some? {
      var p, bs := PrepareLayer(l).value, l.baseline.value.conditions;
      var all := AllRows(l.layerKey, p.plan, bs, p.conditions);
      forall i | 0 <= i < |bs| ensures ValidHeader(bs[i]) { assert StoredCondition(l.baseline.value.columns, bs[i]); }
      BaselineRowsKeyed(l.layerKey, p.plan, bs, p.conditions);
      UnmatchedRowsKeyed(l.layerKey, p.plan, p.conditions, SourceIds(bs));
      SortProps(all, RowOrder);
      var rows := SortBy(all, RowOrder);
      forall i | 0 <= i < |rows| ensures RowKeyed(rows[i]) {
        MemberOfPermutation(all, rows, i);
        var k := IndexOf(all, rows[i]);
      }
    }
  }

  predicate CellKeyed(c: CellChange) { c.sortOrder >= 0 && c.code != "" }

  lemma {:induction false} ColumnMapMembers(columns: seq<Column>)
    ensures forall code :: code in ColumnMap(columns) ==>
      ColumnMap(columns)[code] in columns && ColumnMap(columns)[code].code == code
  {
    if |columns| > 0 { ColumnMapMembers(columns[..|columns| - 1]); }
  }

  /** Cells of a valid layer have keys a cursor may carry. */
  lemma {:induction false} CellsKeyed(l: LayerInput, i: nat)
    requires ValidLayer(l) && CompareLayer(l).Ok? && l.baseline.Some? && i < |CompareLayer(l).value.rows|
    ensures forall j :: 0 <= j < |CompareLayer(l).value.rows[i].cells| ==>
      CellKeyed(CompareLayer(l).value.rows[i].cells[j])
  {
    hide PrepareLayer, ComparePrepared, ColumnMap, FindParameter, SelectParameters, StrictlySorted, OrdersAgree,
         StoredCondition, SortedCurrentCells, ProjectCurrent, ProjectBaseline;
    var p, row := PrepareLayer(l).value, CompareLayer(l).value.rows[i];
    ComparedFacts(l);
    PreparedParts(l);
    ColumnMapMembers(l.baseline.value.columns);
    forall j | 0 <= j < |row.cells| ensures CellKeyed(row.cells[j]) {
      assert CellAuthority(p.columns, p.selected, row.cells[j]);
      SelectedKeyed(l, p.selected, row.cells[j].code);
    }
  }

  lemma {:induction false} SelectedKeyed(l: LayerInput, selected: seq<CurrentParameter>, code: string)
    requires SelectParameters(l.parameters, StoredCodes(l.conditions)) == Ok(selected)
    requires forall i :: 0 <= i < |l.parameters| ==> l.parameters[i].code != "" && l.parameters[i].sortOrder >= 0
    ensures var q := FindParameter(selected, code); q.Some? ==> code != "" && q.value.sortOrder >= 0
  {
    hide Selected, SortBy, FindParameter, StoredCodes, ParameterCodes;
    var stored := StoredCodes(l.conditions);
    FindParameterMember(selected, code);
    SelectedAmong(l.parameters, stored);
    SortProps(Selected(l.parameters, stored), ParameterOrder);
    var q := FindParameter(selected, code);
    if q.Some? { var k := IndexOf(l.parameters, q.value); }
  }

  lemma {:induction false} SelectedAmong(ps: seq<CurrentParameter>, stored: set<string>)
    ensures forall p :: p in Selected(ps, stored) ==> p in ps
  {
    if |ps| > 0 { SelectedAmong(ps[..|ps| - 1], stored); }
  }

  // ---------------------------------------------------------------- condition pages

  lemma {:induction false} ItemsKeepOrder(b: Bundle, rows: seq<Row>, f: T.Filters)
    requires BranchRows(b, rows, f).Ok? && StrictlySorted(rows, RowOrder)
    ensures var items := BranchRows(b, rows, f).value;
      && StrictlySorted(items, ConditionKeyOf)
      && forall i :: 0 <= i < |items| ==> exists k :: 0 <= k < |rows| && ConditionKeyOf(items[i]) == RowOrder(rows[k])
  {
    hide CellItems, KeyLess, MetadataVisible, ConditionItemOf, ConditionKeyOf, RowOrder;
    var n := |rows| - 1;
    if n >= 0 {
      ItemsKeepOrder(b, rows[..n], f);
      var before, items := BranchRows(b, rows[..n], f).value, BranchRows(b, rows, f).value;
      ItemKeyIs(b, rows[n], f, |CellItems(b, rows[n].status, rows[n].cells, f).value|);
      forall i | 0 <= i < |items| ensures exists k :: 0 <= k < |rows| && ConditionKeyOf(items[i]) == RowOrder(rows[k]) {
        if i < |before| {
          var k :| 0 <= k < n && ConditionKeyOf(before[i]) == RowOrder(rows[..n][k]);
          assert ConditionKeyOf(items[i]) == RowOrder(rows[k]);
        } else {
          assert ConditionKeyOf(items[i]) == RowOrder(rows[n]);
        }
      }
      forall i, j | 0 <= i < j < |items| ensures KeyLess(ConditionKeyOf(items[i]), ConditionKeyOf(items[j])) {
        if j == |before| {
          var k :| 0 <= k < n && ConditionKeyOf(before[i]) == RowOrder(rows[..n][k]);
          assert KeyLess(RowOrder(rows[k]), RowOrder(rows[n]));
        }
      }
    }
  }

  lemma {:induction false} ItemKeyIs(b: Bundle, row: Row, f: T.Filters, count: nat)
    ensures ConditionKeyOf(ConditionItemOf(b, row, f, count)) == RowOrder(row)
  {
    hide HasChange, RowRefFor;
  }

  function RowPager(items: seq<ConditionItem>, scope: T.Scope): Pager<ConditionItem> {
    (cursor: Option<Key>, limit: nat) => PageOfRows(items, scope, limit, cursor)
  }

  lemma {:induction false} RowPagerGood(items: seq<ConditionItem>, scope: T.Scope)
    requires scope.BranchScope? && forall i :: 0 <= i < |items| ==>
      items[i].effectiveIndex >= 0 && items[i].identity > 0
    ensures GoodPages(scope, RowPager(items, scope))
  {
    hide After, CursorShort, TokenShort;
    forall cursor: Option<Key>, limit: nat | PageOfRows(items, scope, limit, cursor).Ok?
      && PageOfRows(items, scope, limit, cursor).value.next.Some?
      ensures ValidKey(scope, PageOfRows(items, scope, limit, cursor).value.next.value)
      ensures CursorShort(scope, PageOfRows(items, scope, limit, cursor).value.next.value)
    {
      var rest := After(items, ConditionKeyOf, cursor);
      AfterMembers(items, ConditionKeyOf, cursor);
      assert rest[limit - 1] in rest;
      var k := IndexOf(items, rest[limit - 1]);
    }
  }

  lemma {:induction false} ItemsKeyed(b: Bundle, rows: seq<Row>, f: T.Filters)
    requires BranchRows(b, rows, f).Ok? && forall i :: 0 <= i < |rows| ==> RowKeyed(rows[i])
    ensures var items := BranchRows(b, rows, f).value; forall i :: 0 <= i < |items| ==>
      items[i].effectiveIndex >= 0 && items[i].identity > 0
  {
    hide CellItems, MetadataVisible, HasChange, RowRefFor;
    if |rows| > 0 { ItemsKeyed(b, rows[..|rows| - 1], f); }
  }

  ghost predicate Positive(limits: seq<nat>) { forall i :: 0 <= i < |limits| ==> limits[i] > 0 }

  function Sum(limits: seq<nat>): nat {
    if |limits| == 0 then 0 else Sum(limits[..|limits| - 1]) + limits[|limits| - 1]
  }

  /** The page that ends at position `k` is not the last and would carry a cursor that is too long. */
  predicate LongAt(items: seq<ConditionItem>, scope: T.Scope, k: nat) {
    0 < k < |items| && !CursorShort(scope, ConditionKeyOf(items[k - 1]))
  }

  /** Some page on the way would. */
  ghost predicate MeetsLong(items: seq<ConditionItem>, scope: T.Scope, limits: seq<nat>) {
    exists i :: 0 <= i <= |limits| && LongAt(items, scope, Sum(limits[..i]))
  }

  lemma {:induction false} MeetsNext(items: seq<ConditionItem>, scope: T.Scope, limits: seq<nat>)
    requires |limits| > 0
    ensures MeetsLong(items, scope, limits) <==>
      MeetsLong(items, scope, limits[..|limits| - 1]) || LongAt(items, scope, Sum(limits))
  {
    hide LongAt, Sum;
    var n := |limits| - 1;
    assert limits[..|limits|] == limits;
    forall i | 0 <= i <= n ensures limits[..n][..i] == limits[..i] {}
    if MeetsLong(items, scope, limits) && !LongAt(items, scope, Sum(limits)) {
      var i :| 0 <= i <= |limits| && LongAt(items, scope, Sum(limits[..i]));
      assert LongAt(items, scope, Sum(limits[..n][..i]));
    }
    if MeetsLong(items, scope, limits[..n]) {
      var i :| 0 <= i <= n && LongAt(items, scope, Sum(limits[..n][..i]));
      assert LongAt(items, scope, Sum(limits[..i]));
    }
    if LongAt(items, scope, Sum(limits)) { assert LongAt(items, scope, Sum(limits[..|limits|])); }
  }

  /** Where a walk that has not failed stands. */
  predicate Standing(items: seq<ConditionItem>, limits: seq<nat>, w: Walk<ConditionItem>) {
    if |limits| > 0 && Sum(limits) >= |items| then w.done && w.collected == items
    else
      !w.done && Sum(limits) <= |items| && w.collected == items[..Sum(limits)]
        && w.cursor == CursorAt(items, ConditionKeyOf, Sum(limits))
  }

  /** One more page of a walk that stands before position `k`. */
  lemma {:induction false} RowPageAt(items: seq<ConditionItem>, scope: T.Scope, k: nat, limit: nat)
    requires StrictlySorted(items, ConditionKeyOf) && k <= |items| && limit > 0 && TokenShort(T.EncodeScope(scope))
    ensures PageOfRows(items, scope, limit, CursorAt(items, ConditionKeyOf, k)) ==
      if LongAt(items, scope, k + limit) then Err(ResponseInvalid)
      else if k + limit < |items| then Ok(KeysetPage(items[k..k + limit], CursorAt(items, ConditionKeyOf, k + limit)))
      else Ok(KeysetPage(items[k..], None))
  {
    hide StrictlySorted, ConditionKeyOf, TakePage, CursorShort;
    PageAt(items, ConditionKeyOf, k, limit);
  }

  lemma {:induction false} NextRows(items: seq<ConditionItem>, scope: T.Scope, limits: seq<nat>)
    requires |limits| > 0
    ensures var n := |limits| - 1; var before := FollowKeys(RowPager(items, scope), limits[..n]);
      FollowKeys(RowPager(items, scope), limits) ==
        if before.Err? || before.value.done then before
        else match PageOfRows(items, scope, limits[n], before.value.cursor)
          case Err(e) => Err(e)
          case Ok(page) => Ok(Walk(before.value.collected + page.items, page.next, page.next.None?))
  {
    hide PageOfRows;
  }

  lemma {:induction false} NoRowPages(items: seq<ConditionItem>, scope: T.Scope)
    ensures FollowKeys(RowPager(items, scope), []) == Ok(Walk([], None, false))
  {
  }

  /** One more page of a walk that stands. */
  lemma {:induction false} StandsOnePage(items: seq<ConditionItem>, scope: T.Scope, limits: seq<nat>,
      w: Walk<ConditionItem>)
    requires StrictlySorted(items, ConditionKeyOf) && |limits| > 0 && limits[|limits| - 1] > 0
    requires TokenShort(T.EncodeScope(scope))
    requires Standing(items, limits[..|limits| - 1], w) && !w.done
    ensures var page := PageOfRows(items, scope, limits[|limits| - 1], w.cursor);
      if LongAt(items, scope, Sum(limits)) then page == Err(ResponseInvalid)
      else
        page.Ok? && Standing(items, limits,
          Walk(w.collected + page.value.items, page.value.next, page.value.next.None?))
  {
    hide StrictlySorted, ConditionKeyOf, PageOfRows, LongAt;
    var k, limit := Sum(limits[..|limits| - 1]), limits[|limits| - 1];
    RowPageAt(items, scope, k, limit);
    NotLongBeyond(items, scope, Sum(limits));
    if k + limit < |items| { assert items[..k] + items[k..k + limit] == items[..k + limit]; } else {
      assert items[..k] + items[k..] == items;
    }
  }

  lemma {:induction false} DoneStands(items: seq<ConditionItem>, limits: seq<nat>, w: Walk<ConditionItem>)
    requires |limits| > 0 && Standing(items, limits[..|limits| - 1], w) && w.done
    ensures Standing(items, limits, w) && Sum(limits) >= |items|
  {
  }

  /** A walk of condition pages fails exactly when a page on the way would carry a cursor that is too long. */
  lemma {:induction false} RowWalk(items: seq<ConditionItem>, scope: T.Scope, limits: seq<nat>)
    requires StrictlySorted(items, ConditionKeyOf) && Positive(limits) && TokenShort(T.EncodeScope(scope))
    ensures var w := FollowKeys(RowPager(items, scope), limits);
      if MeetsLong(items, scope, limits) then w == Err(ResponseInvalid) else w.Ok? && Standing(items, limits, w.value)
  {
    hide StrictlySorted, ConditionKeyOf, PageOfRows, LongAt, MeetsLong, RowPager, FollowKeys, TokenShort;
    if |limits| > 0 {
      var n := |limits| - 1;
      RowWalk(items, scope, limits[..n]);
      MeetsNext(items, scope, limits);
      NextRows(items, scope, limits);
      if !MeetsLong(items, scope, limits[..n]) {
        var before := FollowKeys(RowPager(items, scope), limits[..n]).value;
        if before.done {
          DoneStands(items, limits, before);
          NotLongBeyond(items, scope, Sum(limits));
        } else {
          StandsOnePage(items, scope, limits, before);
        }
      }
      hide Standing, Sum;
    } else {
      NothingMet(items, scope);
      NoRowPages(items, scope);
    }
  }

  lemma {:induction false} NotLongBeyond(items: seq<ConditionItem>, scope: T.Scope, k: nat)
    ensures k >= |items| ==> !LongAt(items, scope, k)
  {
  }

  lemma {:induction false} NothingMet(items: seq<ConditionItem>, scope: T.Scope)
    ensures !MeetsLong(items, scope, [])
  {
    hide CursorShort;
    var none: seq<nat> := [];
    assert none[..0] == none;
  }

  /** The condition items of a layer under a scope's filters, in a form that pages. */
  lemma {:induction false} ConditionItemsPage(projectId: int, hash: string, l: LayerInput, scope: T.Scope)
    requires CompareLayer(l).Ok? && ValidLayer(l) && scope.BranchScope?
    requires BranchRows(BundleFor(projectId, hash, l), CompareLayer(l).value.rows, scope.filters).Ok?
    ensures var items := BranchRows(BundleFor(projectId, hash, l), CompareLayer(l).value.rows, scope.filters).value;
      StrictlySorted(items, ConditionKeyOf) && GoodPages(scope, RowPager(items, scope))
  {
    hide CompareLayer, PrepareLayer, BranchRows, StrictlySorted, ConditionKeyOf, RowOrder, RowPager, GoodPages,
         StoredCondition, ValidColumn;
    RowsStrictlySorted(l);
    RowsKeyed(l);
    var b := BundleFor(projectId, hash, l);
    ItemsKeepOrder(b, CompareLayer(l).value.rows, scope.filters);
    ItemsKeyed(b, CompareLayer(l).value.rows, scope.filters);
    RowPagerGood(BranchRows(b, CompareLayer(l).value.rows, scope.filters).value, scope);
  }

  /**
   * Following the tokens of condition pages, with any limits: the walk fails exactly when a page on
   * the way would carry a cursor token that is too long, and otherwise collects the items in order,
   * each exactly once, and ends with the last.
   */
  lemma {:induction false} ConditionPagesCollect(projectId: int, hash: string, l: LayerInput, scope: T.Scope,
      limits: seq<nat>)
    requires CompareLayer(l).Ok? && ValidLayer(l) && scope.BranchScope? && T.ValidScope(scope)
    requires TokenShort(T.EncodeScope(scope))
    requires BranchRows(BundleFor(projectId, hash, l), CompareLayer(l).value.rows, scope.filters).Ok?
    requires Positive(limits)
    ensures var items := BranchRows(BundleFor(projectId, hash, l), CompareLayer(l).value.rows, scope.filters).value;
      var r := FollowTokens(scope, RowPager(items, scope), limits);
      if MeetsLong(items, scope, limits) then r == Err(ResponseInvalid)
      else
        && r.Ok?
        && (r.value.done <==> |limits| > 0 && Sum(limits) >= |items|)
        && r.value.collected == if r.value.done then items else items[..Sum(limits)]
  {
    hide CompareLayer, PrepareLayer, BranchRows, FollowKeys, FollowTokens, MeetsLong, StrictlySorted, ConditionKeyOf,
         RowPager, T.ValidScope, GoodPages, ValidLayer, TokenShort;
    ConditionItemsPage(projectId, hash, l, scope);
    var items := BranchRows(BundleFor(projectId, hash, l), CompareLayer(l).value.rows, scope.filters).value;
    TokensFollowKeys(scope, RowPager(items, scope), limits);
    RowWalk(items, scope, limits);
  }

  /** No cursor but perhaps the last item's is too long. */
  predicate AllCursorsShort(items: seq<ConditionItem>, scope: T.Scope) {
    forall k :: 0 <= k < |items| - 1 ==> CursorShort(scope, ConditionKeyOf(items[k]))
  }

  /** No walk meets a long token exactly when the cursor behind every item but the last is short. */
  lemma {:induction false} EveryConditionWalk(items: seq<ConditionItem>, scope: T.Scope)
    ensures (forall limits :: Positive(limits) ==> !MeetsLong(items, scope, limits)) <==> AllCursorsShort(items, scope)
  {
    hide CursorShort, ConditionKeyOf, Sum;
    if forall limits :: Positive(limits) ==> !MeetsLong(items, scope, limits) {
      forall k | 0 <= k < |items| - 1 ensures CursorShort(scope, ConditionKeyOf(items[k])) {
        var limits: seq<nat> := [k + 1];
        assert Positive(limits) && limits[..1] == limits;
        OneLimit(k + 1);
        assert LongAt(items, scope, Sum(limits[..1])) ==> MeetsLong(items, scope, limits);
      }
    }
    if AllCursorsShort(items, scope) {
      forall limits | Positive(limits) ensures !MeetsLong(items, scope, limits) {
        forall i | 0 <= i <= |limits| ensures !LongAt(items, scope, Sum(limits[..i])) {
          var k := Sum(limits[..i]);
          if 0 < k < |items| { assert CursorShort(scope, ConditionKeyOf(items[k - 1])); }
        }
      }
    }
  }

  lemma {:induction false} OneLimit(n: nat)
    ensures Sum([n]) == n
  {
    var none: seq<nat> := [];
    assert [n][..0] == none && Sum(none) == 0;
  }

  // ---------------------------------------------------------------- cell pages

  lemma {:induction false} CellsKeepOrder(b: Bundle, status: RowStatus, cells: seq<CellChange>, f: T.Filters)
    requires CellItems(b, status, cells, f).Ok? && StrictlySorted(cells, CellOrder)
    ensures var items := CellItems(b, status, cells, f).value;
      && StrictlySorted(items, ItemKey)
      && forall i :: 0 <= i < |items| ==> exists k :: 0 <= k < |cells| && ItemKey(items[i]) == CellOrder(cells[k])
  {
    hide DrillMatches, ItemOf, KeyLess, ItemKey, CellOrder;
    var n := |cells| - 1;
    if n >= 0 {
      CellsKeepOrder(b, status, cells[..n], f);
      var before, items := CellItems(b, status, cells[..n], f).value, CellItems(b, status, cells, f).value;
      if ItemOf(b, status, cells[n]).Ok? { ShownKeyIs(b, status, cells[n]); }
      forall i | 0 <= i < |items| ensures exists k :: 0 <= k < |cells| && ItemKey(items[i]) == CellOrder(cells[k]) {
        if i < |before| {
          var k :| 0 <= k < n && ItemKey(before[i]) == CellOrder(cells[..n][k]);
          assert ItemKey(items[i]) == CellOrder(cells[k]);
        } else {
          assert ItemKey(items[i]) == CellOrder(cells[n]);
        }
      }
      forall i, j | 0 <= i < j < |items| ensures KeyLess(ItemKey(items[i]), ItemKey(items[j])) {
        if j == |before| {
          var k :| 0 <= k < n && ItemKey(before[i]) == CellOrder(cells[..n][k]);
          assert KeyLess(CellOrder(cells[k]), CellOrder(cells[n]));
        }
      }
    }
  }

  lemma {:induction false} ShownKeyIs(b: Bundle, status: RowStatus, c: CellChange)
    requires ItemOf(b, status, c).Ok?
    ensures ItemKey(ItemOf(b, status, c).value) == CellOrder(c)
  {
    hide BaselineMetadata, CurrentMetadata;
  }

  /** How many items a page from position `k` holds. */
  function RunLength(items: seq<CellItem>, scope: T.Scope, limit: nat, k: nat): (n: nat)
    requires scope.CellScope? && k <= |items|
    ensures n <= limit && k + n <= |items|
  {
    FitCount(scope, items[k..], limit, 0)
  }

  /** The cursor behind `n` more items, if any remain. */
  function CursorBehind(items: seq<CellItem>, k: nat): Option<Key>
    requires k <= |items|
  {
    if 0 < k < |items| then Some(ItemKey(items[k - 1])) else None
  }

  lemma {:induction false} PageFromPosition(items: seq<CellItem>, scope: T.Scope, limit: nat, k: nat)
    requires scope.CellScope? && TokensShort(scope.rowRef, scope) && StrictlySorted(items, ItemKey) && k <= |items|
    ensures var n := RunLength(items, scope, limit, k); var next := CursorBehind(items, k + n);
      PageOfCells(items, scope, limit, CursorAt(items, ItemKey, k)) ==
        if n == 0 && k < |items| then Err(ResponseTooLarge)
        else if NextShort(scope, next) then Ok(KeysetPage(items[k..k + n], next)) else Err(ResponseInvalid)
  {
    hide KeyLess, StrictlySorted, FitCount, After, NextShort, TokensShort, ItemKey;
    RestAfter(items, k);
    var rest := items[k..];
    var n := FitCount(scope, rest, limit, 0);
    assert rest[..n] == items[k..k + n];
    if n > 0 { assert rest[n - 1] == items[k + n - 1]; }
  }

  lemma {:induction false} RunIsMaximal(items: seq<CellItem>, scope: T.Scope, limit: nat, k: nat)
    requires scope.CellScope? && k <= |items| && limit > 0
    ensures var n := RunLength(items, scope, limit, k);
      && (n > 0 <==> k < |items| && Fits(scope, items[k..], 1))
      && (n > 0 ==> Fits(scope, items[k..], n))
      && (n == limit || k + n == |items| || !Fits(scope, items[k..], n + 1))
  {
    hide Fits;
    FitCountBounds(scope, items[k..], limit, 0);
    FirstFits(scope, items[k..], limit);
  }

  /**
   * From the cursor before position `k`, a cell page is the longest fitting run of next items: not
   * empty while items remain, within the byte budget, and its cursor stands behind it. It fails
   * exactly when the next item alone exceeds the budget, or when that cursor's token is too long.
   */
  lemma {:induction false} CellPageAt(items: seq<CellItem>, scope: T.Scope, limit: nat, k: nat)
    requires scope.CellScope? && TokensShort(scope.rowRef, scope) && StrictlySorted(items, ItemKey) && k <= |items|
    requires limit > 0
    ensures var n := RunLength(items, scope, limit, k); var next := CursorBehind(items, k + n);
      && n <= limit && k + n <= |items|
      && (n > 0 <==> k < |items| && Fits(scope, items[k..], 1))
      && (n > 0 ==> Fits(scope, items[k..], n))
      && (n == limit || k + n == |items| || !Fits(scope, items[k..], n + 1))
      && PageOfCells(items, scope, limit, CursorAt(items, ItemKey, k)) ==
         if n == 0 && k < |items| then Err(ResponseTooLarge)
         else if NextShort(scope, next) then Ok(KeysetPage(items[k..k + n], next)) else Err(ResponseInvalid)
  {
    hide Fits, NextShort, PageOfCells, RunLength, CursorBehind, StrictlySorted, TokensShort;
    PageFromPosition(items, scope, limit, k);
    RunIsMaximal(items, scope, limit, k);
  }

  lemma {:induction false} RestAfter(items: seq<CellItem>, k: nat)
    requires StrictlySorted(items, ItemKey) && k <= |items|
    ensures After(items, ItemKey, CursorAt(items, ItemKey, k)) == items[k..]
  {
    hide KeyLess, StrictlySorted;
    if k > 0 { AfterElement(items, ItemKey, k - 1); }
  }

  lemma {:induction false} FirstFits(scope: T.Scope, rest: seq<CellItem>, limit: nat)
    requires scope.CellScope? && limit > 0
    ensures FitCount(scope, rest, limit, 0) > 0 <==> rest != [] && Fits(scope, rest, 1)
  {
    hide Fits;
    if rest != [] && Fits(scope, rest, 1) { assert FitCount(scope, rest, limit, 0) == FitCount(scope, rest, limit, 1); }
  }

  function CellPager(items: seq<CellItem>, scope: T.Scope): Pager<CellItem>
    requires scope.CellScope?
  {
    (cursor: Option<Key>, limit: nat) => PageOfCells(items, scope, limit, cursor)
  }

  /** Cell pages followed with the cursors as keys. */
  function FollowCells(items: seq<CellItem>, scope: T.Scope, limits: seq<nat>): Result<Walk<CellItem>, ViewError>
    requires scope.CellScope?
  {
    FollowKeys(CellPager(items, scope), limits)
  }

  lemma {:induction false} NoPages(items: seq<CellItem>, scope: T.Scope)
    requires scope.CellScope?
    ensures FollowCells(items, scope, []) == Ok(Walk([], None, false))
  {
  }

  lemma {:induction false} NextCells(items: seq<CellItem>, scope: T.Scope, limits: seq<nat>)
    requires scope.CellScope? && |limits| > 0
    ensures var n := |limits| - 1; var before := FollowCells(items, scope, limits[..n]);
      FollowCells(items, scope, limits) ==
        if before.Err? || before.value.done then before
        else match PageOfCells(items, scope, limits[n], before.value.cursor)
          case Err(e) => Err(e)
          case Ok(page) => Ok(Walk(before.value.collected + page.items, page.next, page.next.None?))
  {
    hide PageOfCells;
  }

  /** What a walk has collected after `pages` pages. */
  ghost predicate OnTheWay(items: seq<CellItem>, w: Walk<CellItem>, pages: nat) {
    && (w.done ==> w.collected == items)
    && (!w.done ==>
      pages <= |w.collected| <= |items| && w.collected == items[..|w.collected|]
        && w.cursor == CursorAt(items, ItemKey, |w.collected|))
    && (!w.done && pages > 0 ==> |w.collected| < |items|)
  }

  /** Some item alone exceeds the byte budget. */
  ghost predicate ItemTooLarge(items: seq<CellItem>, scope: T.Scope)
    requires scope.CellScope?
  {
    exists k :: 0 <= k < |items| && !Fits(scope, items[k..], 1)
  }

  /** Some item but the last has a cursor that is too long. */
  ghost predicate LongCellCursor(items: seq<CellItem>, scope: T.Scope) {
    exists k :: 0 <= k < |items| - 1 && !CursorShort(scope, ItemKey(items[k]))
  }

  lemma {:induction false} OnePageFurther(items: seq<CellItem>, scope: T.Scope, w: Walk<CellItem>, pages: nat,
      limit: nat)
    requires scope.CellScope? && TokensShort(scope.rowRef, scope) && StrictlySorted(items, ItemKey) && limit > 0
    requires OnTheWay(items, w, pages) && !w.done
    ensures var page := PageOfCells(items, scope, limit, w.cursor);
      if page.Ok? then OnTheWay(items, Walk(w.collected + page.value.items, page.value.next, page.value.next.None?),
        pages + 1)
      else
        (page.error == ResponseTooLarge && ItemTooLarge(items, scope))
          || (page.error == ResponseInvalid && LongCellCursor(items, scope))
  {
    hide PageOfCells, StrictlySorted, Fits, ItemKey, RunLength, NextShort, TokensShort, ItemTooLarge, LongCellCursor;
    var k := |w.collected|;
    CellPageAt(items, scope, limit, k);
    var n := RunLength(items, scope, limit, k);
    if n == 0 && k < |items| {
      TooLargeAt(items, scope, k);
    } else if k + n < |items| {
      NextShortOrLong(items, scope, k + n);
      MiddlePage(items, w, pages, k + n);
    } else {
      NextShortOrLong(items, scope, |items|);
      assert items[..k] + items[k..k + n] == items;
    }
  }

  lemma {:induction false} TooLargeAt(items: seq<CellItem>, scope: T.Scope, k: nat)
    requires scope.CellScope? && k < |items|
    ensures !Fits(scope, items[k..], 1) ==> ItemTooLarge(items, scope)
  {
    hide Fits;
  }

  lemma {:induction false} NextShortOrLong(items: seq<CellItem>, scope: T.Scope, k: nat)
    requires k <= |items|
    ensures NextShort(scope, CursorBehind(items, k)) || LongCellCursor(items, scope)
  {
    hide CursorShort, ItemKey;
    if 0 < k < |items| { LongCursorAt(items, scope, k - 1); }
  }

  lemma {:induction false} MiddlePage(items: seq<CellItem>, w: Walk<CellItem>, pages: nat, k: nat)
    requires OnTheWay(items, w, pages) && !w.done && |w.collected| < k < |items|
    ensures OnTheWay(items, Walk(w.collected + items[|w.collected|..k], CursorBehind(items, k), false), pages + 1)
  {
    hide ItemKey;
    assert items[..|w.collected|] + items[|w.collected|..k] == items[..k];
  }

  lemma {:induction false} LongCursorAt(items: seq<CellItem>, scope: T.Scope, k: nat)
    requires k < |items| - 1
    ensures !LongCellCursor(items, scope) ==> CursorShort(scope, ItemKey(items[k]))
  {
  }

  lemma {:induction false} DoneStays(items: seq<CellItem>, w: Walk<CellItem>, pages: nat)
    requires OnTheWay(items, w, pages) && w.done
    ensures OnTheWay(items, w, pages + 1)
  {
  }

  lemma {:induction false} CellWalk(items: seq<CellItem>, scope: T.Scope, limits: seq<nat>)
    requires scope.CellScope? && TokensShort(scope.rowRef, scope) && StrictlySorted(items, ItemKey) && Positive(limits)
    ensures var w := FollowCells(items, scope, limits);
      if w.Ok? then OnTheWay(items, w.value, |limits|)
      else
        (w.error == ResponseTooLarge && ItemTooLarge(items, scope))
          || (w.error == ResponseInvalid && LongCellCursor(items, scope))
  {
    if |limits| > 0 {
      var n := |limits| - 1;
      CellWalk(items, scope, limits[..n]);
      NextCells(items, scope, limits);
      if FollowCells(items, scope, limits[..n]).Ok? {
        var before := FollowCells(items, scope, limits[..n]).value;
        if before.done { DoneStays(items, before, n); } else { OnePageFurther(items, scope, before, n, limits[n]); }
      }
      hide PageOfCells, StrictlySorted, ItemTooLarge, LongCellCursor, ItemKey, FollowCells, KeyLess, OnTheWay,
           TokensShort;
    } else {
      NoPages(items, scope);
    }
  }

  /** The position a walk reaches while its pages can be built. */
  function Reached(items: seq<CellItem>, scope: T.Scope, limits: seq<nat>): (k: nat)
    requires scope.CellScope?
    ensures k <= |items|
  {
    if |limits| == 0 then 0
    else
      var k := Reached(items, scope, limits[..|limits| - 1]);
      k + RunLength(items, scope, limits[|limits| - 1], k)
  }

  /** The page from position `k` cannot be built: its first item is too large, or its cursor too long. */
  predicate BadPage(items: seq<CellItem>, scope: T.Scope, limit: nat, k: nat)
    requires scope.CellScope? && k <= |items|
  {
    var n := RunLength(items, scope, limit, k);
    (n == 0 && k < |items|) || !NextShort(scope, CursorBehind(items, k + n))
  }

  /** Some page on the way cannot be built. */
  predicate MeetsBadPage(items: seq<CellItem>, scope: T.Scope, limits: seq<nat>)
    requires scope.CellScope?
  {
    |limits| > 0 && (MeetsBadPage(items, scope, limits[..|limits| - 1])
      || BadPage(items, scope, limits[|limits| - 1], Reached(items, scope, limits[..|limits| - 1])))
  }

  predicate StandingAt(items: seq<CellItem>, w: Walk<CellItem>, first: bool, k: nat) {
    k <= |items| && if !first && k == |items| then w.done && w.collected == items
      else !w.done && w.collected == items[..k] && w.cursor == CursorAt(items, ItemKey, k)
  }

  /** One page from position `k`. */
  lemma {:induction false} StandsFurther(items: seq<CellItem>, scope: T.Scope, w: Walk<CellItem>, first: bool, k: nat,
      limit: nat)
    requires scope.CellScope? && TokensShort(scope.rowRef, scope) && StrictlySorted(items, ItemKey) && limit > 0
    requires StandingAt(items, w, first, k) && !w.done
    ensures var page := PageOfCells(items, scope, limit, w.cursor); var n := RunLength(items, scope, limit, k);
      if BadPage(items, scope, limit, k) then page.Err?
      else
        page.Ok? && StandingAt(items, Walk(w.collected + page.value.items, page.value.next, page.value.next.None?),
          false, k + n)
  {
    hide PageOfCells, StrictlySorted, Fits, ItemKey, RunLength, NextShort, TokensShort;
    CellPageAt(items, scope, limit, k);
    var n := RunLength(items, scope, limit, k);
    assert items[..k] + items[k..k + n] == items[..k + n];
    assert items[..|items|] == items;
  }

  lemma {:induction false} FinishedIsGood(items: seq<CellItem>, scope: T.Scope, limit: nat)
    requires scope.CellScope?
    ensures RunLength(items, scope, limit, |items|) == 0 && !BadPage(items, scope, limit, |items|)
  {
  }

  /** A walk of cell pages fails exactly when a page on the way cannot be built. */
  lemma {:induction false} CellWalkExactly(items: seq<CellItem>, scope: T.Scope, limits: seq<nat>)
    requires scope.CellScope? && TokensShort(scope.rowRef, scope) && StrictlySorted(items, ItemKey) && Positive(limits)
    ensures var w := FollowCells(items, scope, limits);
      if MeetsBadPage(items, scope, limits) then w.Err?
        else w.Ok? && StandingAt(items, w.value, |limits| == 0, Reached(items, scope, limits))
  {
    hide PageOfCells, StrictlySorted, TokensShort, FollowCells, BadPage, RunLength;
    if |limits| > 0 {
      var n := |limits| - 1;
      CellWalkExactly(items, scope, limits[..n]);
      NextCells(items, scope, limits);
      FinishedIsGood(items, scope, limits[n]);
      if !MeetsBadPage(items, scope, limits[..n]) {
        var before := FollowCells(items, scope, limits[..n]).value;
        if !before.done { StandsFurther(items, scope, before, n == 0, Reached(items, scope, limits[..n]), limits[n]); }
      }
    } else {
      NoPages(items, scope);
    }
  }

  lemma {:induction false} CellPageGood(items: seq<CellItem>, scope: T.Scope, cursor: Option<Key>, limit: nat)
    requires scope.CellScope? && PageOfCells(items, scope, limit, cursor).Ok?
    requires PageOfCells(items, scope, limit, cursor).value.next.Some?
    ensures var next := PageOfCells(items, scope, limit, cursor).value.next.value;
      CursorShort(scope, next) && exists x :: x in items && next == ItemKey(x)
  {
    hide After, FitCount, CursorShort, TokenShort, ItemKey;
    var rest := After(items, ItemKey, cursor);
    var n := FitCount(scope, rest, limit, 0);
    AfterMembers(items, ItemKey, cursor);
    assert rest[n - 1] in rest;
  }

  lemma {:induction false} ItemKeyIsValid(scope: T.Scope, x: CellItem)
    requires scope.CellScope? && x.sortOrder >= 0 && x.code != ""
    ensures ValidKey(scope, ItemKey(x))
  {
  }

  lemma {:induction false} CellPagerGood(items: seq<CellItem>, scope: T.Scope)
    requires scope.CellScope? && forall i :: 0 <= i < |items| ==> items[i].sortOrder >= 0 && items[i].code != ""
    ensures GoodPages(scope, CellPager(items, scope))
  {
    hide PageOfCells, CursorShort, ValidKey, ItemKey;
    forall cursor: Option<Key>, limit: nat | PageOfCells(items, scope, limit, cursor).Ok?
      && PageOfCells(items, scope, limit, cursor).value.next.Some?
      ensures ValidKey(scope, PageOfCells(items, scope, limit, cursor).value.next.value)
      ensures CursorShort(scope, PageOfCells(items, scope, limit, cursor).value.next.value)
    {
      CellPageGood(items, scope, cursor, limit);
      var x :| x in items && PageOfCells(items, scope, limit, cursor).value.next.value == ItemKey(x);
      var k := IndexOf(items, x);
      ItemKeyIsValid(scope, x);
    }
  }

  /**
   * Following the tokens of cell pages, with any limits: the walk fails exactly when a page on the
   * way cannot be built, to report an item that alone exceeds the byte budget or a cursor that is
   * too long. Otherwise it collects the items in order, each exactly once, and ends with the last.
   */
  lemma {:induction false} CellPagesCollect(items: seq<CellItem>, scope: T.Scope, limits: seq<nat>)
    requires scope.CellScope? && T.ValidScope(scope) && TokensShort(scope.rowRef, scope)
    requires StrictlySorted(items, ItemKey) && Positive(limits)
    requires forall i :: 0 <= i < |items| ==> items[i].sortOrder >= 0 && items[i].code != ""
    ensures var r := FollowTokens(scope, CellPager(items, scope), limits);
      && (r.Err? <==> MeetsBadPage(items, scope, limits))
      && (r.Err? ==>
        (r.error == ResponseTooLarge && ItemTooLarge(items, scope))
          || (r.error == ResponseInvalid && LongCellCursor(items, scope)))
      && (r.Ok? ==>
            var w := r.value;
            && (w.done ==> w.collected == items)
            && (!w.done ==>
              |limits| <= |w.collected| <= |items| && w.collected == items[..Reached(items, scope, limits)])
            && (|limits| > 0 && |limits| >= |items| ==> w.done))
  {
    hide CellPager, StrictlySorted, MeetsBadPage, Reached, ItemTooLarge, LongCellCursor, ItemKey, FollowKeys,
         FollowTokens, T.ValidScope, GoodPages, TokensShort;
    CellPagerGood(items, scope);
    TokensFollowKeys(scope, CellPager(items, scope), limits);
    CellWalk(items, scope, limits);
    CellWalkExactly(items, scope, limits);
  }

  function Ones(n: nat): (r: seq<nat>)
    ensures |r| == n && Positive(r)
  {
    seq(n, _ => 1)
  }

  /** The item fits by itself, and so does its cursor if others follow. */
  predicate Passable(items: seq<CellItem>, scope: T.Scope, k: nat)
    requires scope.CellScope? && k < |items|
  {
    Fits(scope, items[k..], 1) && (k < |items| - 1 ==> CursorShort(scope, ItemKey(items[k])))
  }

  /** A page of one item from position `k` fails over that item or its cursor. */
  lemma {:induction false} OneItemPage(items: seq<CellItem>, scope: T.Scope, k: nat)
    requires scope.CellScope? && TokensShort(scope.rowRef, scope) && StrictlySorted(items, ItemKey) && k < |items|
    ensures var page := PageOfCells(items, scope, 1, CursorAt(items, ItemKey, k));
      && (page.Ok? <==> Passable(items, scope, k))
      && (page.Ok? ==> page.value == KeysetPage([items[k]], CursorBehind(items, k + 1)))
  {
    hide PageOfCells, StrictlySorted, Fits, ItemKey, CursorShort, RunLength, TokensShort;
    CellPageAt(items, scope, 1, k);
    assert items[k..k + 1] == [items[k]];
  }

  /** Asking for one item at a time stands before position `n`, unless an item before it fails. */
  lemma {:induction false} OneByOneStands(items: seq<CellItem>, scope: T.Scope, n: nat)
    requires scope.CellScope? && TokensShort(scope.rowRef, scope) && StrictlySorted(items, ItemKey) && n <= |items|
    requires FollowCells(items, scope, Ones(n)).Ok?
    ensures forall k :: 0 <= k < n ==> Passable(items, scope, k)
    ensures n < |items| ==>
      FollowCells(items, scope, Ones(n)) == Ok(Walk(items[..n], CursorAt(items, ItemKey, n), false))
  {
    hide PageOfCells, StrictlySorted, TokensShort, FollowCells, Passable;
    if n > 0 {
      OneMoreOne(items, scope, n - 1);
      OneByOneStands(items, scope, n - 1);
      OneItemPage(items, scope, n - 1);
      assert items[..n - 1] + [items[n - 1]] == items[..n];
    } else {
      assert Ones(0) == [];
      NoPages(items, scope);
    }
  }

  lemma {:induction false} OneMoreOne(items: seq<CellItem>, scope: T.Scope, n: nat)
    requires scope.CellScope?
    ensures var before := FollowCells(items, scope, Ones(n));
      FollowCells(items, scope, Ones(n + 1)) ==
        if before.Err? || before.value.done then before
        else match PageOfCells(items, scope, 1, before.value.cursor)
          case Err(e) => Err(e)
          case Ok(page) => Ok(Walk(before.value.collected + page.items, page.next, page.next.None?))
  {
    hide PageOfCells, FollowCells;
    assert Ones(n + 1)[..n] == Ones(n);
    NextCells(items, scope, Ones(n + 1));
  }

  /** No walk of cell pages fails exactly when every item fits by itself and every cursor but the last is short. */
  lemma {:induction false} EveryCellWalk(items: seq<CellItem>, scope: T.Scope)
    requires scope.CellScope? && TokensShort(scope.rowRef, scope) && StrictlySorted(items, ItemKey)
    ensures (forall limits :: Positive(limits) ==> FollowCells(items, scope, limits).Ok?) <==>
      !ItemTooLarge(items, scope) && !LongCellCursor(items, scope)
  {
    hide StrictlySorted, Fits, ItemKey, KeyLess, CursorShort, TokensShort, FollowCells;
    if forall limits :: Positive(limits) ==> FollowCells(items, scope, limits).Ok? {
      assert FollowCells(items, scope, Ones(|items|)).Ok?;
      OneByOneStands(items, scope, |items|);
      forall k | 0 <= k < |items|
        ensures Fits(scope, items[k..], 1) && (k < |items| - 1 ==> CursorShort(scope, ItemKey(items[k]))) {
        assert Passable(items, scope, k);
      }
    }
    if !ItemTooLarge(items, scope) && !LongCellCursor(items, scope) {
      forall limits | Positive(limits) ensures FollowCells(items, scope, limits).Ok? { CellWalk(items, scope, limits); }
    }
  }

  /** The cell items of a matched or added row, and of a removed row whose column orders agree, page without loss. */
  lemma {:induction false} RowCellsPage(projectId: int, hash: string, l: LayerInput, f: T.Filters, i: nat)
    requires ValidLayer(l) && CompareLayer(l).Ok? && l.baseline.Some? && i < |CompareLayer(l).value.rows|
    ensures var b, row := BundleFor(projectId, hash, l), CompareLayer(l).value.rows[i];
      CellItems(b, row.status, row.cells, f).Ok? && (row.status == Removed ==> OrdersAgree(b.columns, b.selected)) ==>
        var items := CellItems(b, row.status, row.cells, f).value;
        StrictlySorted(items, ItemKey) && forall j :: 0 <= j < |items| ==>
          items[j].sortOrder >= 0 && items[j].code != ""
  {
    hide CompareLayer, PrepareLayer, CellItems, StrictlySorted, OrdersAgree, ItemKey, CellOrder, ValidLayer, CellKeyed;
    CellOrders(l, i);
    CellsKeyed(l, i);
    var b, row := BundleFor(projectId, hash, l), CompareLayer(l).value.rows[i];
    if CellItems(b, row.status, row.cells, f).Ok? && (row.status == Removed ==> OrdersAgree(b.columns, b.selected)) {
      CellsKeepOrder(b, row.status, row.cells, f);
      var items := CellItems(b, row.status, row.cells, f).value;
      forall j | 0 <= j < |items| ensures items[j].sortOrder >= 0 && items[j].code != "" {
        var k :| 0 <= k < |row.cells| && ItemKey(items[j]) == CellOrder(row.cells[k]);
        KeyedAlike(items[j], row.cells[k]);
      }
    }
  }

  lemma {:induction false} KeyedAlike(x: CellItem, c: CellChange)
    requires ItemKey(x) == CellOrder(c) && CellKeyed(c)
    ensures x.sortOrder >= 0 && x.code != ""
  {
    assert ItemKey(x)[0] == CellOrder(c)[0] && ItemKey(x)[1] == CellOrder(c)[1];
  }
}
