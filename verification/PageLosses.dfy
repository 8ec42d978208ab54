/**
 * Cells out of order are lost by paging (backend/app/features/backbone_diff/provider.py), with a
 * layer whose removed row is such a case.
 */
module PageLosses {
  import opened Results
  import opened Ordering
  import opened Json
  import opened JsonSizes
  import opened Paging
  import opened BackboneDiff
  import opened DiffLaws
  import opened DiffOrders
  import opened DiffViews
  import opened DiffViewLaws
  import opened PageWalks
  import opened ResponseSizes
  import Decimals
  import T = Tokens

  // ---------------------------------------------------------------- cells out of order

  /** Unfiltered, with all values public, a row's cell items are its cells one by one. */
  lemma {:induction false} UnfilteredItems(b: Bundle, status: RowStatus, cells: seq<CellChange>)
    requires forall i :: 0 <= i < |cells| ==> PublicCell(cells[i])
    ensures var r := CellItems(b, status, cells, NO_FILTERS);
      r.Ok? && |r.value| == |cells| && forall i :: 0 <= i < |cells| ==> ItemKey(r.value[i]) == CellOrder(cells[i])
  {
    hide PublicCell, BaselineMetadata, CurrentMetadata;
    if |cells| > 0 { UnfilteredItems(b, status, cells[..|cells| - 1]); }
  }

  lemma {:induction false} SameOrder(cells: seq<CellChange>, items: seq<CellItem>)
    requires |items| == |cells| && forall i :: 0 <= i < |cells| ==> ItemKey(items[i]) == CellOrder(cells[i])
    ensures StrictlySorted(items, ItemKey) <==> StrictlySorted(cells, CellOrder)
  {
    hide KeyLess, ItemKey, CellOrder;
    if StrictlySorted(cells, CellOrder) {
      forall i, j | 0 <= i < j < |cells| ensures KeyLess(ItemKey(items[i]), ItemKey(items[j])) {
        assert KeyLess(CellOrder(cells[i]), CellOrder(cells[j]));
      }
    }
    if StrictlySorted(items, ItemKey) {
      forall i, j | 0 <= i < j < |cells| ensures KeyLess(CellOrder(cells[i]), CellOrder(cells[j])) {
        assert KeyLess(ItemKey(items[i]), ItemKey(items[j]));
      }
    }
  }

  /** A cursor further on leaves fewer items, and the next item is one of those it drops. */
  lemma {:induction false} AfterFurther(items: seq<CellItem>, cursor: Option<Key>, next: Key)
    requires cursor.Some? ==> KeyLess(cursor.value, next)
    ensures |After(items, ItemKey, Some(next))| <= |After(items, ItemKey, cursor)|
    ensures var rest := After(items, ItemKey, cursor); rest != [] && next == ItemKey(rest[0]) ==>
      |After(items, ItemKey, Some(next))| < |rest|
  {
    hide KeyLess, ItemKey;
    if |items| > 0 {
      AfterFurther(items[1..], cursor, next);
      if cursor.None? { AfterFurtherTail(items[1..], next); }
      KeyTotal(next, next);
      var k := ItemKey(items[0]);
      if cursor.Some? && KeyLess(next, k) { KeyTransitive(cursor.value, next, k); }
    }
  }

  lemma {:induction false} AfterFurtherTail(items: seq<CellItem>, next: Key)
    ensures |After(items, ItemKey, Some(next))| <= |items|
  {
    hide KeyLess, ItemKey;
    if |items| > 0 { AfterFurtherTail(items[1..], next); }
  }

  lemma {:induction false} AfterBeyond(items: seq<CellItem>, cursor: Key, x: CellItem)
    requires x in After(items, ItemKey, Some(cursor))
    ensures KeyLess(cursor, ItemKey(x))
  {
    hide KeyLess, ItemKey;
    if !KeyLess(cursor, ItemKey(items[0])) || x != items[0] { AfterBeyond(items[1..], cursor, x); }
  }

  /** Asking for one item at a time collects strictly ascending items only, and comes to an end. */
  lemma {:induction false} OneByOne(items: seq<CellItem>, scope: T.Scope, n: nat)
    requires scope.CellScope?
    ensures var r := FollowCells(items, scope, Ones(n));
      && (r.Err? ==> r.error == ResponseTooLarge || r.error == ResponseInvalid)
      && (r.Ok? ==>
            var w := r.value;
            && StrictlySorted(w.collected, ItemKey)
            && (!w.done ==> |w.collected| == n && n + |After(items, ItemKey, w.cursor)| <= |items|)
            && (!w.done && n > 0 ==> w.cursor == Some(ItemKey(w.collected[n - 1])))
            && (!w.done && n == 0 ==> w.cursor == None))
  {
    hide KeyLess, ItemKey, Fits, After;
    if n > 0 {
      assert Ones(n)[..n - 1] == Ones(n - 1);
      OneByOne(items, scope, n - 1);
      var before := FollowCells(items, scope, Ones(n - 1));
      if before.Ok? && !before.value.done { OneMore(items, scope, before.value); }
    } else {
      NoneAfterNothing(items);
    }
  }

  lemma {:induction false} NoneAfterNothing(items: seq<CellItem>)
    ensures After(items, ItemKey, None) == items
  {
  }

  lemma {:induction false} OneMore(items: seq<CellItem>, scope: T.Scope, w: Walk<CellItem>)
    requires scope.CellScope? && StrictlySorted(w.collected, ItemKey)
    requires w.cursor == if w.collected == [] then None else Some(ItemKey(w.collected[|w.collected| - 1]))
    requires |w.collected| + |After(items, ItemKey, w.cursor)| <= |items|
    ensures var r := PageOfCells(items, scope, 1, w.cursor);
      && (r.Err? ==> r.error == ResponseTooLarge || r.error == ResponseInvalid)
      && (r.Ok? ==>
            var c := w.collected + r.value.items;
            && StrictlySorted(c, ItemKey)
            && (r.value.next.Some? ==>
                  && |r.value.items| == 1 && r.value.next == Some(ItemKey(c[|c| - 1]))
                  && |c| + |After(items, ItemKey, r.value.next)| <= |items|))
  {
    hide KeyLess, ItemKey, Fits, After;
    var rest := After(items, ItemKey, w.cursor);
    FitCountBounds(scope, rest, 1, 0);
    var r := PageOfCells(items, scope, 1, w.cursor);
    if r.Ok? && rest != [] {
      var x := rest[0];
      var c := w.collected + r.value.items;
      assert r.value.items == [x] && c == w.collected + [x];
      if w.cursor.Some? { AfterBeyond(items, w.cursor.value, x); }
      AppendAscending(w.collected, x);
      AfterFurther(items, w.cursor, ItemKey(x));
    }
  }

  lemma {:induction false} AppendAscending(collected: seq<CellItem>, x: CellItem)
    requires StrictlySorted(collected, ItemKey)
    requires (collected != [] ==> KeyLess(ItemKey(collected[|collected| - 1]), ItemKey(x)))
    ensures StrictlySorted(collected + [x], ItemKey)
  {
    hide KeyLess, ItemKey;
    var n := |collected|;
    forall i | 0 <= i < n ensures KeyLess(ItemKey(collected[i]), ItemKey(x)) {
      if i < n - 1 { KeyTransitive(ItemKey(collected[i]), ItemKey(collected[n - 1]), ItemKey(x)); }
    }
  }

  /**
   * Items out of order are lost by some walk: asked for one at a time, they come to an end
   * incomplete, unless a page on the way cannot be built.
   */
  lemma {:induction false} OutOfOrderLoses(items: seq<CellItem>, scope: T.Scope)
    requires scope.CellScope? && !StrictlySorted(items, ItemKey)
    ensures var r := FollowCells(items, scope, Ones(|items| + 1)); r.Ok? ==> r.value.done && r.value.collected != items
  {
    hide StrictlySorted, ItemKey, After, FollowCells;
    OneByOne(items, scope, |items| + 1);
  }

  lemma {:induction false} ItemsFromCells(b: Bundle, status: RowStatus, cells: seq<CellChange>, f: T.Filters)
    requires CellItems(b, status, cells, f).Ok?
    ensures var items := CellItems(b, status, cells, f).value;
      forall i :: 0 <= i < |items| ==> exists k :: 0 <= k < |cells| && ItemOf(b, status, cells[k]) == Ok(items[i])
  {
    hide DrillMatches, ItemOf;
    var n := |cells| - 1;
    if n >= 0 {
      ItemsFromCells(b, status, cells[..n], f);
      var before, items := CellItems(b, status, cells[..n], f).value, CellItems(b, status, cells, f).value;
      forall i | 0 <= i < |items| ensures exists k :: 0 <= k < |cells| && ItemOf(b, status, cells[k]) == Ok(items[i]) {
        if i < |before| {
          var k :| 0 <= k < n && ItemOf(b, status, cells[..n][k]) == Ok(before[i]);
          assert ItemOf(b, status, cells[k]) == Ok(items[i]);
        } else {
          assert ItemOf(b, status, cells[n]) == Ok(items[i]);
        }
      }
    }
  }

  /** The cell items of a row of a valid layer have keys a cursor may carry. */
  lemma {:induction false} CellItemsKeyed(projectId: int, hash: string, l: LayerInput, i: nat, f: T.Filters)
    requires ValidLayer(l) && CompareLayer(l).Ok? && l.baseline.Some? && i < |CompareLayer(l).value.rows|
    requires CellItems(BundleFor(projectId, hash, l), CompareLayer(l).value.rows[i].status,
      CompareLayer(l).value.rows[i].cells, f).Ok?
    ensures var row := CompareLayer(l).value.rows[i];
      var items := CellItems(BundleFor(projectId, hash, l), row.status, row.cells, f).value;
      forall j :: 0 <= j < |items| ==> items[j].sortOrder >= 0 && items[j].code != ""
  {
    hide CompareLayer, PrepareLayer, CellItems, ValidLayer, ItemOf, CellKeyed, CellOrder, ItemKey;
    var b, row := BundleFor(projectId, hash, l), CompareLayer(l).value.rows[i];
    CellsKeyed(l, i);
    ItemsFromCells(b, row.status, row.cells, f);
    var items := CellItems(b, row.status, row.cells, f).value;
    forall j | 0 <= j < |items| ensures items[j].sortOrder >= 0 && items[j].code != "" {
      var k :| 0 <= k < |row.cells| && ItemOf(b, row.status, row.cells[k]) == Ok(items[j]);
      ShownKeyIs(b, row.status, row.cells[k]);
      KeyedAlike(items[j], row.cells[k]);
    }
  }

  /**
   * The cells of a removed row, under any filters: no walk through tokens loses an item when the
   * listed items are in order; otherwise asking for one at a time ends incomplete, unless a page on
   * the way cannot be built. Unfiltered they are in order exactly when the column orders agree.
   */
  lemma {:induction false} RemovedRowLosesCells(projectId: int, hash: string, l: LayerInput, i: nat, scope: T.Scope)
    requires ValidLayer(l) && CompareLayer(l).Ok? && l.baseline.Some? && i < |CompareLayer(l).value.rows|
    requires CompareLayer(l).value.rows[i].status == Removed
    requires scope.CellScope? && T.ValidScope(scope) && TokensShort(scope.rowRef, scope)
    requires CellItems(BundleFor(projectId, hash, l), Removed, CompareLayer(l).value.rows[i].cells, scope.filters).Ok?
    ensures var b, row := BundleFor(projectId, hash, l), CompareLayer(l).value.rows[i];
      var items := CellItems(b, Removed, row.cells, scope.filters).value;
      && (StrictlySorted(items, ItemKey) ==>
            forall limits :: Positive(limits) && FollowTokens(scope, CellPager(items, scope), limits).Ok? ==>
              FollowTokens(scope, CellPager(items, scope), limits).value.done ==>
                FollowTokens(scope, CellPager(items, scope), limits).value.collected == items)
      && (!StrictlySorted(items, ItemKey) ==>
            var r := FollowTokens(scope, CellPager(items, scope),
              Ones(|items| + 1)); r.Ok? ==> r.value.done && r.value.collected != items)
      && (scope.filters == NO_FILTERS ==> (StrictlySorted(items, ItemKey) <==> OrdersAgree(b.columns, b.selected)))
  {
    hide CompareLayer, PrepareLayer, CellItems, OrdersAgree, ItemKey, CellOrder, PublicCell, StrictlySorted, FollowKeys,
         FollowTokens, CellPager, ValidLayer, T.ValidScope, TokensShort;
    var b, row := BundleFor(projectId, hash, l), CompareLayer(l).value.rows[i];
    var items := CellItems(b, Removed, row.cells, scope.filters).value;
    CellItemsKeyed(projectId, hash, l, i, scope.filters);
    if StrictlySorted(items, ItemKey) {
      forall limits | Positive(limits) && FollowTokens(scope, CellPager(items, scope), limits).Ok?
        ensures FollowTokens(scope, CellPager(items, scope), limits).value.done ==>
          FollowTokens(scope, CellPager(items, scope), limits).value.collected == items
      {
        CellPagesCollect(items, scope, limits);
      }
    } else {
      OutOfOrderLoses(items, scope);
      TokensLoseAlike(items, scope, Ones(|items| + 1));
    }
    if scope.filters == NO_FILTERS {
      CellOrders(l, i);
      AllShown(b, Removed, row.cells);
      UnfilteredItems(b, Removed, row.cells);
      SameOrder(row.cells, items);
    }
  }

  lemma {:induction false} TokensLoseAlike(items: seq<CellItem>, scope: T.Scope, limits: seq<nat>)
    requires scope.CellScope? && T.ValidScope(scope) && forall i :: 0 <= i < |items| ==>
      items[i].sortOrder >= 0 && items[i].code != ""
    ensures var k, t := FollowCells(items, scope, limits), FollowTokens(scope, CellPager(items, scope), limits);
      (k.Ok? <==> t.Ok?) && (t.Ok? ==> t.value.done == k.value.done && t.value.collected == k.value.collected)
  {
    hide T.ValidScope, FollowKeys, FollowTokens, CellPager, GoodPages;
    CellPagerGood(items, scope);
    TokensFollowKeys(scope, CellPager(items, scope), limits);
  }

  lemma {:induction false} AllShown(b: Bundle, status: RowStatus, cells: seq<CellChange>)
    requires CellItems(b, status, cells, NO_FILTERS).Ok?
    ensures forall i :: 0 <= i < |cells| ==> PublicCell(cells[i])
  {
    hide PublicCell, BaselineMetadata, CurrentMetadata;
    if |cells| > 0 { AllShown(b, status, cells[..|cells| - 1]); }
  }

  // ---------------------------------------------------------------- the swapped layer

  /** The scope of the swapped layer's removed row in project 1. */
  function SwappedScope(): T.Scope {
    T.CellScope(1, "L", ZeroHash(), T.RowRef(1, "L", "removed", Some(1), None), NO_FILTERS)
  }

  lemma {:induction false} SwappedScopeIsSmall()
    ensures Size(Obj(T.ScopeFields(SwappedScope()))) <= 600
  {
    hide Size, T.FiltersFields, T.RowRefFields, ZeroHash;
    CellScopeSize(SwappedScope());
    RowRefSize(SwappedScope().rowRef);
    ZeroHashSize();
    NoFiltersSize();
    SmallInt(1);
    NullSize();
    StringBound("L");
    PlainRemoved();
    PlainText("removed");
  }

  lemma {:induction false} PlainRemoved()
    ensures Plain("removed")
  {
  }

  lemma {:induction false} SwappedScopeIsValid()
    ensures T.ValidScope(SwappedScope()) && TokensShort(SwappedScope().rowRef, SwappedScope())
  {
    hide Size, T.ScopeFields, TokenShort, ZeroHash;
    SwappedScopeIsSmall();
    ShortBytes(T.ScopeFields(SwappedScope()));
    RowRefSmaller(SwappedScope());
    ZeroHashSize();
    NoFiltersSize();
    Decimals.StripFixed("L");
  }

  /** Small items under this scope always page. */
  lemma {:induction false} SmallItemsPage(items: seq<CellItem>, limits: seq<nat>)
    requires Positive(limits) && forall i :: 0 <= i < |items| ==> SmallItem(items[i])
    ensures FollowCells(items, SwappedScope(), limits).Ok?
  {
    var scope := SwappedScope();
    SwappedScopeIsValid();
    SwappedScopeIsSmall();
    assert scope.CellScope?;
    hide T.ValidScope, T.ScopeFields, Fits, SmallItem, After, FitCount, SwappedScope, TokensShort, NextShort, Size;
    if |limits| > 0 {
      var n := |limits| - 1;
      SmallItemsPage(items, limits[..n]);
      var before := FollowCells(items, scope, limits[..n]).value;
      SmallPage(items, scope, limits[n], before.cursor);
      NextCells(items, scope, limits);
      hide PageOfCells, FollowCells;
    } else {
      NoPages(items, scope);
    }
  }

  lemma {:induction false} SmallPage(items: seq<CellItem>, scope: T.Scope, limit: nat, cursor: Option<Key>)
    requires scope.CellScope? && T.ValidScope(scope) && TokensShort(scope.rowRef, scope)
    requires Size(Obj(T.ScopeFields(scope))) <= 600 && limit > 0
    requires forall i :: 0 <= i < |items| ==> SmallItem(items[i])
    ensures PageOfCells(items, scope, limit, cursor).Ok?
  {
    hide T.ValidScope, T.ScopeFields, Fits, SmallItem, After, FitCount, TokenShort, CursorShort, Size;
    var rest := After(items, ItemKey, cursor);
    AfterMembers(items, ItemKey, cursor);
    forall k | 0 <= k < |rest| ensures SmallItem(rest[k]) && CursorShort(scope, ItemKey(rest[k])) {
      assert rest[k] in rest;
      var m := IndexOf(items, rest[k]);
      SmallCursor(scope, rest[k]);
    }
    if rest != [] { SmallItemFits(scope, rest); }
    FirstFits(scope, rest, limit);
  }

  lemma {:induction false} SmallCursor(scope: T.Scope, x: CellItem)
    requires scope.CellScope? && SmallItem(x) && Size(Obj(T.ScopeFields(scope))) <= 600
    ensures CursorShort(scope, ItemKey(x))
  {
    hide Size, T.ScopeFields, T.CursorFields, TokenShort;
    CursorBound(scope, x);
    SameCursor(scope, x);
    ShortBytes(T.CursorFields(CellCursor(scope, x)));
  }

  lemma {:induction false} SameCursor(scope: T.Scope, x: CellItem)
    requires scope.CellScope?
    ensures CursorFor(scope, ItemKey(x)) == CellCursor(scope, x)
  {
  }

  /** A valueless removed cell of one of the two swapped columns. */
  lemma {:induction false} SwappedItemSmall(b: Bundle, c: CellChange)
    requires b.columns == map["a" := COLUMN_A, "b" := COLUMN_B] && b.selected == [PARAMETER_B, PARAMETER_A]
    requires c.code in b.columns && c.sortOrder == ShownOrder(b.columns, b.selected, c.code) && c.baselineValue.None?
    requires c.currentValue.None?
    ensures ItemOf(b, Removed, c).Ok? && SmallItem(ItemOf(b, Removed, c).value)
  {
    FindParameterMember(b.selected, c.code);
    var found := FindParameter(b.selected, c.code);
    if found.Some? { assert found.value == PARAMETER_A || found.value == PARAMETER_B; }
  }

  /** The loss is real: the pages of this valid layer's removed row end with one of its two cells never shown. */
  lemma {:induction false} SwappedLayerLosesACell()
    ensures ValidLayer(SwappedLayer()) && CompareLayer(SwappedLayer()).Ok?
    ensures |CompareLayer(SwappedLayer()).value.rows| == 1
    ensures var row := CompareLayer(SwappedLayer()).value.rows[0];
      var r := CellItems(BundleFor(1, ZeroHash(), SwappedLayer()), Removed, row.cells, NO_FILTERS);
      && row.status == Removed && r.Ok? && |r.value| == 2
      && var w := FollowTokens(SwappedScope(), CellPager(r.value, SwappedScope()), Ones(3));
         w.Ok? && w.value.done && w.value.collected != r.value
  {
    hide CompareLayer, PrepareLayer, CellItems, OrdersAgree, ItemKey, CellOrder, KeyLess, StrictlySorted, FollowKeys,
         FollowTokens, CellPager, ValidLayer, SmallItem, T.ValidScope, TokensShort, ItemOf, RowAuthority, ZeroHash;
    RemovedRowOutOfOrder();
    var l := SwappedLayer();
    var b, row := BundleFor(1, ZeroHash(), l), CompareLayer(l).value.rows[0];
    UnfilteredItems(b, Removed, row.cells);
    SwappedScopeIsValid();
    RemovedRowLosesCells(1, ZeroHash(), l, 0, SwappedScope());
    var items := CellItems(b, Removed, row.cells, NO_FILTERS).value;
    SwappedItemsSmall(1, ZeroHash(), NO_FILTERS);
    SmallItemsPage(items, Ones(3));
    CellItemsKeyed(1, ZeroHash(), l, 0, NO_FILTERS);
    TokensLoseAlike(items, SwappedScope(), Ones(3));
  }

  lemma {:induction false} SwappedItemsSmall(projectId: int, hash: string, f: T.Filters)
    requires CompareLayer(SwappedLayer()).Ok? && |CompareLayer(SwappedLayer()).value.rows| == 1
    requires CellItems(BundleFor(projectId, hash, SwappedLayer()), Removed,
      CompareLayer(SwappedLayer()).value.rows[0].cells, f).Ok?
    ensures var items := CellItems(BundleFor(projectId, hash, SwappedLayer()), Removed,
      CompareLayer(SwappedLayer()).value.rows[0].cells, f).value;
      forall i :: 0 <= i < |items| ==> SmallItem(items[i])
  {
    hide CompareLayer, PrepareLayer, CellItems, OrdersAgree, CellOrder, KeyLess, StrictlySorted, ValidLayer, SmallItem,
         ItemOf;
    RemovedRowOutOfOrder();
    SwappedCells(projectId, hash);
    var b, row := BundleFor(projectId, hash, SwappedLayer()), CompareLayer(SwappedLayer()).value.rows[0];
    var items := CellItems(b, Removed, row.cells, f).value;
    ItemsFromCells(b, Removed, row.cells, f);
    forall i | 0 <= i < |items| ensures SmallItem(items[i]) {
      var k :| 0 <= k < |row.cells| && ItemOf(b, Removed, row.cells[k]) == Ok(items[i]);
      SwappedItemSmall(b, row.cells[k]);
    }
  }

  lemma {:induction false} SwappedCells(projectId: int, hash: string)
    ensures CompareLayer(SwappedLayer()).Ok? && |CompareLayer(SwappedLayer()).value.rows| == 1
    ensures var b, row := BundleFor(projectId, hash, SwappedLayer()), CompareLayer(SwappedLayer()).value.rows[0];
      && b.columns == map["a" := COLUMN_A, "b" := COLUMN_B] && b.selected == [PARAMETER_B, PARAMETER_A]
      && forall k :: 0 <= k < |row.cells| ==>
        row.cells[k].code in b.columns && row.cells[k].sortOrder == ShownOrder(b.columns, b.selected, row.cells[k].code)
  {
    hide PrepareLayer, ComparePrepared, ValidLayer, OrdersAgree, StrictlySorted, ShownOrder, FindParameter, ColumnMap,
         ProjectBaseline, ProjectCurrent;
    RemovedRowOutOfOrder();
    SwappedColumns();
    SwappedPrepared();
    ComparedFacts(SwappedLayer());
    var b, row := BundleFor(projectId, hash, SwappedLayer()), CompareLayer(SwappedLayer()).value.rows[0];
    assert RowFacts(b.columns, b.selected, row);
    forall k | 0 <= k < |row.cells|
      ensures row.cells[k].code in b.columns
        && row.cells[k].sortOrder == ShownOrder(b.columns, b.selected, row.cells[k].code) {
      assert CellAuthority(b.columns, b.selected, row.cells[k]);
    }
  }
}
