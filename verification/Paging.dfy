/** Keyset paging over a strictly sorted list: a page starts after the cursor's key. */
module Paging {
  import opened Results
  import opened Ordering

  /** The items whose key is beyond the cursor. */
  function After<T>(xs: seq<T>, key: T -> Key, cursor: Option<Key>): seq<T> {
    if cursor.None? || |xs| == 0 then xs
    else if KeyLess(cursor.value, key(xs[0])) then [xs[0]] + After(xs[1..], key, cursor)
    else After(xs[1..], key, cursor)
  }

  datatype KeysetPage<T> = KeysetPage(items: seq<T>, next: Option<Key>)

  /** At most `limit` items after the cursor; the last one's key is the next cursor while more remain. */
  function TakePage<T>(xs: seq<T>, key: T -> Key, cursor: Option<Key>, limit: nat): KeysetPage<T> {
    var rest := After(xs, key, cursor);
    if |rest| > limit then KeysetPage(rest[..limit], if limit == 0 then None else Some(key(rest[limit - 1])))
    else KeysetPage(rest, None)
  }

  lemma {:induction false} AfterAll<T>(xs: seq<T>, key: T -> Key, cursor: Key)
    requires forall i :: 0 <= i < |xs| ==> KeyLess(cursor, key(xs[i]))
    ensures After(xs, key, Some(cursor)) == xs
  {
    hide KeyLess;
    if |xs| > 0 {
      AfterAll(xs[1..], key, cursor);
      assert xs == [xs[0]] + xs[1..];
    }
  }

  /** After the key of the element at `k`, exactly the later elements remain. */
  lemma {:induction false} AfterElement<T>(xs: seq<T>, key: T -> Key, k: nat)
    requires StrictlySorted(xs, key) && k < |xs|
    ensures After(xs, key, Some(key(xs[k]))) == xs[k + 1..]
  {
    hide KeyLess;
    KeyTotal(key(xs[k]), key(xs[0]));
    KeyTotal(key(xs[0]), key(xs[0]));
    if k == 0 {
      AfterAll(xs[1..], key, key(xs[0]));
    } else {
      assert KeyLess(key(xs[0]), key(xs[k]));
      AfterElement(xs[1..], key, k - 1);
      assert xs[1..][k - 1] == xs[k] && xs[1..][k..] == xs[k + 1..];
    }
  }

  /** The cursor that stands before position `k`. */
  function CursorAt<T>(xs: seq<T>, key: T -> Key, k: nat): Option<Key>
    requires k <= |xs|
  {
    if k == 0 then None else Some(key(xs[k - 1]))
  }

  /** From the cursor before `k`, a page is the next `limit` items and its cursor stands behind them. */
  lemma {:induction false} PageAt<T>(xs: seq<T>, key: T -> Key, k: nat, limit: nat)
    requires StrictlySorted(xs, key) && k <= |xs| && limit > 0
    ensures var page := TakePage(xs, key, CursorAt(xs, key, k), limit);
      if |xs| - k > limit then page.items == xs[k..k + limit] && page.next == CursorAt(xs, key, k + limit)
      else page.items == xs[k..] && page.next == None
  {
    hide KeyLess, StrictlySorted;
    if k > 0 { AfterElement(xs, key, k - 1); }
    var rest := After(xs, key, CursorAt(xs, key, k));
    assert rest == xs[k..];
    if |rest| > limit { assert rest[..limit] == xs[k..k + limit] && rest[limit - 1] == xs[k + limit - 1]; }
  }

  /** What a client holds after a number of pages, each asked for with its own limit. */
  datatype Walk<T> = Walk(collected: seq<T>, cursor: Option<Key>, done: bool)

  function Follow<T>(xs: seq<T>, key: T -> Key, limits: seq<nat>): Walk<T> {
    if |limits| == 0 then Walk([], None, false)
    else
      var before := Follow(xs, key, limits[..|limits| - 1]);
      if before.done then before
      else
        var page := TakePage(xs, key, before.cursor, limits[|limits| - 1]);
        Walk(before.collected + page.items, page.next, page.next.None?)
  }

  /**
   * Following the cursors until none is given collects every item exactly once in order, whatever
   * positive limits are used, and ends after at most as many pages as there are items.
   */
  lemma {:induction false} FollowCollects<T>(xs: seq<T>, key: T -> Key, limits: seq<nat>)
    requires StrictlySorted(xs, key) && forall i :: 0 <= i < |limits| ==> limits[i] > 0
    ensures var w := Follow(xs, key, limits);
      && (w.done ==> w.collected == xs)
      && (!w.done ==>
        |w.collected| <= |xs| && w.collected == xs[..|w.collected|] && |limits| <= |w.collected|
          && (|limits| > 0 ==> |w.collected| < |xs|) && w.cursor == CursorAt(xs, key, |w.collected|))
      && (|limits| > 0 && |limits| >= |xs| ==> w.done)
  {
    hide TakePage, StrictlySorted;
    if |limits| > 0 {
      var n := |limits| - 1;
      FollowCollects(xs, key, limits[..n]);
      var before := Follow(xs, key, limits[..n]);
      if !before.done { PageAt(xs, key, |before.collected|, limits[n]); }
    }
  }

  /**
   * Without a strict order paging loses items: some first page passes an item that no cursor at
   * or beyond the page's own can reach.
   */
  lemma {:induction false} UnsortedLoses<T>(xs: seq<T>, key: T -> Key) returns (limit: nat, lost: nat)
    requires !StrictlySorted(xs, key)
    ensures 0 < limit <= lost < |xs|
    ensures var page := TakePage(xs, key, None, limit);
      && page.items == xs[..limit] && page.next.Some?
      && forall cursor: Key :: !KeyLess(cursor, page.next.value) ==> !KeyLess(cursor, key(xs[lost]))
  {
    hide KeyLess;
    var i, j :| 0 <= i < j < |xs| && !KeyLess(key(xs[i]), key(xs[j]));
    limit, lost := i + 1, j;
    forall cursor: Key | !KeyLess(cursor, key(xs[i])) ensures !KeyLess(cursor, key(xs[j])) {
      KeyMixed(key(xs[j]), key(xs[i]), cursor);
      KeyTotal(key(xs[i]), cursor);
      KeyTotal(key(xs[j]), cursor);
    }
  }
}
