/**
 * Sort keys and stable sorting.
 *
 * The program orders everything by tuples of integers and strings. Such a tuple
 * is a `Key` here, compared lexicographically; `SortBy` is a stable sort by key.
 */
module Ordering {

  datatype Atom = Num(n: int) | Txt(s: string)

  type Key = seq<Atom>

  /** Code-point order of strings. */
  predicate TextLess(a: string, b: string) {
    if |b| == 0 then false
    else if |a| == 0 then true
    else if a[0] != b[0] then a[0] < b[0]
    else TextLess(a[1..], b[1..])
  }

  predicate AtomLess(a: Atom, b: Atom) {
    match (a, b)
    case (Num(m), Num(n)) => m < n
    case (Txt(s), Txt(t)) => TextLess(s, t)
    case (Num(_), Txt(_)) => true
    case (Txt(_), Num(_)) => false
  }

  predicate KeyLess(a: Key, b: Key) {
    if |b| == 0 then false
    else if |a| == 0 then true
    else if a[0] != b[0] then AtomLess(a[0], b[0])
    else KeyLess(a[1..], b[1..])
  }

  lemma {:induction false} TextTotal(a: string, b: string)
    ensures TextLess(a, b) || a == b || TextLess(b, a)
    ensures !(TextLess(a, b) && TextLess(b, a))
    ensures !TextLess(a, a)
  {
    if |a| > 0 && |b| > 0 && a[0] == b[0] {
      TextTotal(a[1..], b[1..]);
      assert a == [a[0]] + a[1..] && b == [b[0]] + b[1..];
    }
    if |a| > 0 { TextTotal(a[1..], a[1..]); }
  }

  lemma {:induction false} TextTransitive(a: string, b: string, c: string)
    requires TextLess(a, b) && TextLess(b, c)
    ensures TextLess(a, c)
  {
    if |a| > 0 && a[0] == b[0] == c[0] { TextTransitive(a[1..], b[1..], c[1..]); }
  }

  lemma {:induction false} AtomTotal(a: Atom, b: Atom)
    ensures AtomLess(a, b) || a == b || AtomLess(b, a)
    ensures !(AtomLess(a, b) && AtomLess(b, a))
    ensures !AtomLess(a, a)
  {
    if a.Txt? && b.Txt? { TextTotal(a.s, b.s); }
    if a.Txt? { TextTotal(a.s, a.s); }
  }

  lemma {:induction false} AtomTransitive(a: Atom, b: Atom, c: Atom)
    requires AtomLess(a, b) && AtomLess(b, c)
    ensures AtomLess(a, c)
  {
    if a.Txt? { TextTransitive(a.s, b.s, c.s); }
  }

  /** Exactly one of `a < b`, `a == b`, `b < a` holds. */
  lemma {:induction false} KeyTotal(a: Key, b: Key)
    ensures KeyLess(a, b) || a == b || KeyLess(b, a)
    ensures !(KeyLess(a, b) && KeyLess(b, a))
    ensures !KeyLess(a, a)
  {
    if |a| > 0 && |b| > 0 {
      AtomTotal(a[0], b[0]);
      if a[0] == b[0] {
        KeyTotal(a[1..], b[1..]);
        assert a == [a[0]] + a[1..] && b == [b[0]] + b[1..];
      }
    }
    if |a| > 0 { KeyTotal(a[1..], a[1..]); }
  }

  lemma {:induction false} KeyTransitive(a: Key, b: Key, c: Key)
    requires KeyLess(a, b) && KeyLess(b, c)
    ensures KeyLess(a, c)
  {
    if |a| > 0 {
      if a[0] == b[0] == c[0] {
        KeyTransitive(a[1..], b[1..], c[1..]);
      } else if a[0] != b[0] && b[0] != c[0] {
        AtomTransitive(a[0], b[0], c[0]);
        AtomTotal(a[0], b[0]);
        AtomTotal(b[0], c[0]);
      }
    }
  }

  /** `a <= b < c` or `a < b <= c` gives `a < c`, with `<=` read as "not greater". */
  lemma {:induction false} KeyMixed(a: Key, b: Key, c: Key)
    requires !KeyLess(b, a) && !KeyLess(c, b)
    ensures !KeyLess(c, a)
    ensures KeyLess(a, b) || KeyLess(b, c) ==> KeyLess(a, c)
  {
    KeyTotal(a, b);
    KeyTotal(b, c);
    KeyTotal(a, c);
    if KeyLess(a, b) && KeyLess(b, c) { KeyTransitive(a, b, c); }
    if KeyLess(c, a) {
      if a != b { KeyTransitive(c, a, b); }
    }
  }

  function TextKey(s: string): Key { [Txt(s)] }

  // ---------------------------------------------------------------- sorting

  ghost predicate Sorted<T>(xs: seq<T>, key: T -> Key) {
    forall i, j :: 0 <= i < j < |xs| ==> !KeyLess(key(xs[j]), key(xs[i]))
  }

  ghost predicate StrictlySorted<T>(xs: seq<T>, key: T -> Key) {
    forall i, j :: 0 <= i < j < |xs| ==> KeyLess(key(xs[i]), key(xs[j]))
  }

  predicate DistinctKeys<T>(xs: seq<T>, key: T -> Key) {
    forall i, j :: 0 <= i < j < |xs| ==> key(xs[i]) != key(xs[j])
  }

  lemma {:induction false} DistinctAppend<T>(xs: seq<T>, x: T, key: T -> Key)
    requires DistinctKeys(xs, key) && forall i :: 0 <= i < |xs| ==> key(xs[i]) != key(x)
    ensures DistinctKeys(xs + [x], key)
  {
  }

  lemma {:induction false} DistinctConcat<T>(xs: seq<T>, ys: seq<T>, key: T -> Key)
    requires DistinctKeys(xs, key) && DistinctKeys(ys, key)
    requires forall i, j :: 0 <= i < |xs| && 0 <= j < |ys| ==> key(xs[i]) != key(ys[j])
    ensures DistinctKeys(xs + ys, key)
  {
  }

  function Insert<T>(x: T, xs: seq<T>, key: T -> Key): seq<T> {
    if |xs| == 0 || !KeyLess(key(xs[0]), key(x)) then [x] + xs
    else [xs[0]] + Insert(x, xs[1..], key)
  }

  /** Stable sort by key. */
  function SortBy<T>(xs: seq<T>, key: T -> Key): seq<T> {
    if |xs| == 0 then [] else Insert(xs[0], SortBy(xs[1..], key), key)
  }

  ghost function IndexOf<T>(xs: seq<T>, x: T): (i: nat)
    requires x in xs
    ensures i < |xs| && xs[i] == x
  {
    if xs[0] == x then 0 else 1 + IndexOf(xs[1..], x)
  }

  lemma {:induction false} InsertMembers<T>(x: T, xs: seq<T>, key: T -> Key)
    ensures multiset(Insert(x, xs, key)) == multiset{x} + multiset(xs)
    ensures forall y :: y in Insert(x, xs, key) <==> y == x || y in xs
  {
    if |xs| > 0 && KeyLess(key(xs[0]), key(x)) {
      InsertMembers(x, xs[1..], key);
      assert xs == [xs[0]] + xs[1..];
    }
  }

  lemma {:induction false} InsertSorted<T>(x: T, xs: seq<T>, key: T -> Key)
    requires Sorted(xs, key)
    ensures Sorted(Insert(x, xs, key), key)
  {
    if |xs| == 0 {
    } else if !KeyLess(key(xs[0]), key(x)) {
      forall y | y in xs ensures !KeyLess(key(y), key(x)) {
        var i :| 0 <= i < |xs| && xs[i] == y;
        if i > 0 { KeyMixed(key(x), key(xs[0]), key(xs[i])); }
      }
    } else {
      var t := Insert(x, xs[1..], key);
      InsertSorted(x, xs[1..], key);
      InsertMembers(x, xs[1..], key);
      KeyTotal(key(xs[0]), key(x));
      forall y | y in t ensures !KeyLess(key(y), key(xs[0])) {
        if y != x {
          var i := IndexOf(xs[1..], y);
          assert y == xs[i + 1];
        }
      }
    }
  }

  lemma {:induction false} InsertStrict<T>(x: T, xs: seq<T>, key: T -> Key)
    requires StrictlySorted(xs, key) && forall y | y in xs :: key(y) != key(x)
    ensures StrictlySorted(Insert(x, xs, key), key)
  {
    if |xs| == 0 {
    } else if !KeyLess(key(xs[0]), key(x)) {
      assert xs[0] in xs;
      KeyTotal(key(x), key(xs[0]));
      forall y | y in xs ensures KeyLess(key(x), key(y)) {
        var i :| 0 <= i < |xs| && xs[i] == y;
        if i > 0 { KeyTransitive(key(x), key(xs[0]), key(xs[i])); }
      }
    } else {
      var t := Insert(x, xs[1..], key);
      InsertStrict(x, xs[1..], key);
      InsertMembers(x, xs[1..], key);
      forall y | y in t ensures KeyLess(key(xs[0]), key(y)) {
        if y != x {
          var i := IndexOf(xs[1..], y);
          assert y == xs[i + 1];
        }
      }
    }
  }

  /** Sorting permutes, orders, and is strict when the keys are distinct. */
  lemma {:induction false} SortProps<T>(xs: seq<T>, key: T -> Key)
    ensures multiset(SortBy(xs, key)) == multiset(xs)
    ensures |SortBy(xs, key)| == |xs|
    ensures forall x :: x in SortBy(xs, key) <==> x in xs
    ensures Sorted(SortBy(xs, key), key)
    ensures DistinctKeys(xs, key) ==> StrictlySorted(SortBy(xs, key), key)
  {
    if |xs| > 0 {
      var rest := xs[1..];
      var t := SortBy(rest, key);
      SortProps(rest, key);
      InsertMembers(xs[0], t, key);
      InsertSorted(xs[0], t, key);
      assert xs == [xs[0]] + rest;
      if DistinctKeys(xs, key) {
        forall y | y in t ensures key(y) != key(xs[0]) {
          var i := IndexOf(rest, y);
          assert y == xs[i + 1];
        }
        InsertStrict(xs[0], t, key);
      }
    }
    SameMembers(SortBy(xs, key), xs);
  }

  lemma {:induction false} SameMembers<T>(xs: seq<T>, ys: seq<T>)
    requires multiset(xs) == multiset(ys)
    ensures |xs| == |ys|
    ensures forall x :: x in xs <==> x in ys
  {
    assert |multiset(xs)| == |xs| && |multiset(ys)| == |ys|;
    forall x ensures x in xs <==> x in ys {
      assert x in xs <==> x in multiset(xs);
      assert x in ys <==> x in multiset(ys);
    }
  }

  lemma {:induction false} MemberOfPermutation<T>(xs: seq<T>, ys: seq<T>, i: nat)
    requires multiset(xs) == multiset(ys) && i < |ys|
    ensures ys[i] in xs
  {
    assert ys[i] in multiset(ys);
  }

  lemma {:induction false} Inhabited<T>(xs: seq<T>)
    ensures xs == [] || exists x :: x in xs
  {
    if |xs| > 0 { assert xs[0] in xs; }
  }

  /** A strictly sorted sequence is determined by its set of elements. */
  lemma {:induction false} StrictlySortedUnique<T>(xs: seq<T>, ys: seq<T>, key: T -> Key)
    requires StrictlySorted(xs, key) && StrictlySorted(ys, key)
    requires forall x :: x in xs <==> x in ys
    ensures xs == ys
  {
    if |xs| == 0 {
      Inhabited(ys);
    } else {
      assert xs[0] in xs;
      assert ys[0] in xs;
      var i :| 0 <= i < |ys| && ys[i] == xs[0];
      var j :| 0 <= j < |xs| && xs[j] == ys[0];
      KeyTotal(key(xs[0]), key(ys[0]));
      assert i == 0 && j == 0;
      forall x ensures x in xs[1..] <==> x in ys[1..] {
        KeyTotal(key(xs[0]), key(xs[0]));
        if x in xs[1..] { assert x in ys; assert KeyLess(key(xs[0]), key(x)); }
        if x in ys[1..] { assert x in xs; assert KeyLess(key(ys[0]), key(x)); }
      }
      StrictlySortedUnique(xs[1..], ys[1..], key);
      assert xs == [xs[0]] + xs[1..] && ys == [ys[0]] + ys[1..];
    }
  }

  lemma {:induction false} DistinctKeysOfPermutation<T>(xs: seq<T>, ys: seq<T>, key: T -> Key)
    requires multiset(xs) == multiset(ys) && DistinctKeys(xs, key)
    ensures DistinctKeys(ys, key)
  {
    SameMembers(xs, ys);
    SortProps(xs, key);
    SortProps(ys, key);
    var s, t := SortBy(xs, key), SortBy(ys, key);
    forall i, j | 0 <= i < j < |ys| ensures key(ys[i]) != key(ys[j]) {
      assert ys[i] in xs && ys[j] in xs;
      if key(ys[i]) == key(ys[j]) {
        var a :| 0 <= a < |xs| && xs[a] == ys[i];
        var b :| 0 <= b < |xs| && xs[b] == ys[j];
        assert a == b;
        var x := ys[i];
        MultiplicityTwo(ys, i, j);
        MultiplicityOne(xs, a);
      }
    }
  }

  lemma {:induction false} MultiplicityTwo<T>(ys: seq<T>, i: nat, j: nat)
    requires i < j < |ys| && ys[i] == ys[j]
    ensures multiset(ys)[ys[i]] >= 2
  {
    assert ys == ys[..j] + [ys[j]] + ys[j + 1..];
    assert ys[..j][i] == ys[i];
    assert ys[i] in multiset(ys[..j]);
  }

  lemma {:induction false} MultiplicityOne<T>(xs: seq<T>, a: nat)
    requires a < |xs| && forall b :: 0 <= b < |xs| && b != a ==> xs[b] != xs[a]
    ensures multiset(xs)[xs[a]] == 1
  {
    assert xs == xs[..a] + [xs[a]] + xs[a + 1..];
    assert xs[a] !in multiset(xs[..a]);
    assert xs[a] !in multiset(xs[a + 1..]);
  }

  /** Sorting ignores the input order when the keys are distinct. */
  lemma {:induction false} SortPermutation<T>(xs: seq<T>, ys: seq<T>, key: T -> Key)
    requires multiset(xs) == multiset(ys) && DistinctKeys(xs, key)
    ensures SortBy(xs, key) == SortBy(ys, key)
  {
    DistinctKeysOfPermutation(xs, ys, key);
    SameMembers(xs, ys);
    SortProps(xs, key);
    SortProps(ys, key);
    StrictlySortedUnique(SortBy(xs, key), SortBy(ys, key), key);
  }

  /** Elements with the same key are the same element. */
  ghost predicate KeysIdentify<T>(xs: seq<T>, key: T -> Key) {
    forall i, j :: 0 <= i < |xs| && 0 <= j < |xs| && key(xs[i]) == key(xs[j]) ==> xs[i] == xs[j]
  }

  lemma {:induction false} SameKey<T>(xs: seq<T>, key: T -> Key, x: T, y: T)
    requires KeysIdentify(xs, key) && x in xs && y in xs && key(x) == key(y)
    ensures x == y
  {
    var i, j := IndexOf(xs, x), IndexOf(xs, y);
  }

  lemma {:induction false} IdentifyAmong<T>(xs: seq<T>, ys: seq<T>, key: T -> Key)
    requires KeysIdentify(xs, key) && forall i :: 0 <= i < |ys| ==> ys[i] in xs
    ensures KeysIdentify(ys, key)
  {
    forall i, j | 0 <= i < |ys| && 0 <= j < |ys| && key(ys[i]) == key(ys[j]) ensures ys[i] == ys[j] {
      SameKey(xs, key, ys[i], ys[j]);
    }
  }

  lemma {:induction false} SortedHead<T>(xs: seq<T>, key: T -> Key, y: T)
    requires Sorted(xs, key) && y in xs
    ensures !KeyLess(key(y), key(xs[0]))
  {
    var j := IndexOf(xs, y);
    KeyTotal(key(xs[0]), key(xs[0]));
  }

  lemma {:induction false} SortedTail<T>(xs: seq<T>, key: T -> Key)
    requires Sorted(xs, key) && |xs| > 0
    ensures Sorted(xs[1..], key)
  {
  }

  lemma {:induction false} SameHeads<T>(xs: seq<T>, ys: seq<T>, key: T -> Key)
    requires Sorted(xs, key) && Sorted(ys, key) && multiset(xs) == multiset(ys) && KeysIdentify(xs, key) && |xs| > 0
    ensures |ys| == |xs| && ys[0] == xs[0]
    ensures multiset(xs[1..]) == multiset(ys[1..])
  {
    hide KeyLess;
    SameMembers(xs, ys);
    var x, y := xs[0], ys[0];
    assert x in ys && y in xs;
    SortedHead(xs, key, y);
    SortedHead(ys, key, x);
    KeyTotal(key(x), key(y));
    SameKey(xs, key, x, y);
    hide Sorted, KeysIdentify;
    TailsAlike(xs, ys);
  }

  lemma {:induction false} TailsAlike<T>(xs: seq<T>, ys: seq<T>)
    requires |xs| > 0 && |ys| > 0 && xs[0] == ys[0] && multiset(xs) == multiset(ys)
    ensures multiset(xs[1..]) == multiset(ys[1..])
  {
    assert xs == [xs[0]] + xs[1..] && ys == [ys[0]] + ys[1..];
    assert multiset(xs[1..]) == multiset(xs) - multiset{xs[0]} && multiset(ys[1..]) == multiset(ys) - multiset{ys[0]};
  }

  lemma {:induction false} SortedUnique<T>(xs: seq<T>, ys: seq<T>, key: T -> Key)
    requires Sorted(xs, key) && Sorted(ys, key) && multiset(xs) == multiset(ys) && KeysIdentify(xs, key)
    ensures xs == ys
  {
    hide Sorted, KeysIdentify;
    SameMembers(xs, ys);
    if |xs| > 0 {
      SameHeads(xs, ys, key);
      forall i | 0 <= i < |xs[1..]| ensures xs[1..][i] in xs { assert xs[1..][i] == xs[i + 1]; }
      IdentifyAmong(xs, xs[1..], key);
      SortedTail(xs, key);
      SortedTail(ys, key);
      SortedUnique(xs[1..], ys[1..], key);
      assert xs == [xs[0]] + xs[1..] && ys == [ys[0]] + ys[1..];
    }
  }

  /** Sorting ignores the input order when equal keys mean equal elements. */
  lemma {:induction false} SortShuffled<T>(xs: seq<T>, ys: seq<T>, key: T -> Key)
    requires multiset(xs) == multiset(ys) && KeysIdentify(xs, key)
    ensures SortBy(xs, key) == SortBy(ys, key)
  {
    hide Insert, Sorted, KeysIdentify;
    SortProps(xs, key);
    SortProps(ys, key);
    var s := SortBy(xs, key);
    forall i | 0 <= i < |s| ensures s[i] in xs { MemberOfPermutation(xs, s, i); }
    IdentifyAmong(xs, s, key);
    SortedUnique(s, SortBy(ys, key), key);
  }

  /** Sorting leaves a sorted sequence alone. */
  lemma {:induction false} SortFixed<T>(xs: seq<T>, key: T -> Key)
    requires Sorted(xs, key)
    ensures SortBy(xs, key) == xs
  {
    if |xs| > 0 {
      SortFixed(xs[1..], key);
      assert xs == [xs[0]] + xs[1..];
      if |xs| > 1 { assert !KeyLess(key(xs[1]), key(xs[0])); }
    }
  }

  lemma {:induction false} StrictIsSorted<T>(xs: seq<T>, key: T -> Key)
    requires StrictlySorted(xs, key)
    ensures Sorted(xs, key) && DistinctKeys(xs, key)
  {
    forall i, j | 0 <= i < j < |xs| ensures !KeyLess(key(xs[j]), key(xs[i])) && key(xs[i]) != key(xs[j]) {
      KeyTotal(key(xs[i]), key(xs[j]));
      KeyTotal(key(xs[i]), key(xs[i]));
    }
  }

  /** A sequence without repetitions, keeping the last of each value. */
  function Distinct(xs: seq<string>): seq<string> {
    if |xs| == 0 then [] else if xs[0] in xs[1..] then Distinct(xs[1..]) else [xs[0]] + Distinct(xs[1..])
  }

  lemma {:induction false} DistinctProps(xs: seq<string>)
    ensures DistinctKeys(Distinct(xs), TextKey)
    ensures forall x :: x in Distinct(xs) <==> x in xs
  {
    if |xs| > 0 {
      DistinctProps(xs[1..]);
      assert xs == [xs[0]] + xs[1..];
      var d := Distinct(xs[1..]);
      if xs[0] !in xs[1..] {
        forall i | 0 <= i < |d| ensures TextKey(xs[0]) != TextKey(d[i]) {
          assert d[i] in d;
          assert TextKey(xs[0])[0] == Txt(xs[0]) && TextKey(d[i])[0] == Txt(d[i]);
        }
        DistinctConcat([xs[0]], d, TextKey);
      }
    }
  }

  predicate IsLeast(s: set<string>, x: string) { x in s && forall t :: t in s ==> t == x || TextLess(x, t) }

  lemma {:induction false} LeastText(s: set<string>) returns (least: string)
    requires s != {}
    ensures IsLeast(s, least)
    decreases |s|
  {
    hide TextLess;
    var x: string :| x in s;
    var rest := s - {x};
    if rest == {} {
      assert s == {x};
      least := x;
    } else {
      var y := LeastText(rest);
      TextTotal(x, y);
      least := if TextLess(x, y) then x else y;
      forall t | t in s ensures t == least || TextLess(least, t) {
        if t != x && TextLess(x, y) && t != y { TextTransitive(x, y, t); }
      }
    }
  }

  lemma {:induction false} LeastUnique(s: set<string>)
    ensures forall x, y :: IsLeast(s, x) && IsLeast(s, y) ==> x == y
  {
    hide TextLess;
    forall x, y | IsLeast(s, x) && IsLeast(s, y) ensures x == y { TextTotal(x, y); }
  }

  lemma {:induction false} LeastExists(s: set<string>)
    requires s != {}
    ensures exists x :: IsLeast(s, x)
  {
    var least := LeastText(s);
  }

  function Least(s: set<string>): (least: string)
    requires s != {}
    ensures IsLeast(s, least)
  {
    LeastExists(s);
    LeastUnique(s);
    var least :| IsLeast(s, least);
    least
  }

  /** The elements of a set of texts in order, as `sorted` lists them. */
  function SortedTexts(s: set<string>): seq<string>
    decreases |s|
  {
    if s == {} then [] else [Least(s)] + SortedTexts(s - {Least(s)})
  }

  lemma {:induction false} SortedTextsProps(s: set<string>)
    ensures var r := SortedTexts(s);
      && |r| == |s|
      && (forall t :: t in r <==> t in s)
      && (forall i, j :: 0 <= i < j < |r| ==> TextLess(r[i], r[j]))
    decreases |s|
  {
    hide TextLess, Least;
    if s != {} {
      var least, rest := Least(s), s - {Least(s)};
      var tail := SortedTexts(rest);
      SortedTextsProps(rest);
      forall t ensures t in SortedTexts(s) <==> t in s {
        assert t in SortedTexts(s) <==> t == least || t in tail;
      }
      forall j | 0 <= j < |tail| ensures TextLess(least, tail[j]) { assert tail[j] in tail; }
    }
  }

  // ---------------------------------------------------------------- sorting side by side

  ghost predicate Pointwise<T(!new)>(xs: seq<T>, ys: seq<T>, key: T -> Key, related: (T, T) -> bool) {
    |xs| == |ys| && forall i :: 0 <= i < |xs| ==> key(xs[i]) == key(ys[i]) && related(xs[i], ys[i])
  }

  lemma {:induction false} InsertPointwise<T(!new)>(x: T, y: T, xs: seq<T>, ys: seq<T>, key: T -> Key,
      related: (T, T) -> bool)
    requires Pointwise(xs, ys, key, related) && key(x) == key(y) && related(x, y)
    ensures Pointwise(Insert(x, xs, key), Insert(y, ys, key), key, related)
  {
    if |xs| > 0 && KeyLess(key(xs[0]), key(x)) {
      InsertPointwise(x, y, xs[1..], ys[1..], key, related);
    }
  }

  /** Sequences related position by position, with equal keys, stay related when both are sorted. */
  lemma {:induction false} SortPointwise<T(!new)>(xs: seq<T>, ys: seq<T>, key: T -> Key, related: (T, T) -> bool)
    requires Pointwise(xs, ys, key, related)
    ensures Pointwise(SortBy(xs, key), SortBy(ys, key), key, related)
  {
    if |xs| > 0 {
      SortPointwise(xs[1..], ys[1..], key, related);
      InsertPointwise(xs[0], ys[0], SortBy(xs[1..], key), SortBy(ys[1..], key), key, related);
    }
  }
}
