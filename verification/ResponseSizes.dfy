/**
 * The sizes of tokens and of small cell pages: payloads taken apart field by field, and texts whose
 * JSON is as long as a token needs to be refused.
 */
module ResponseSizes {
  import opened Results
  import opened Json
  import opened Bytes
  import opened JsonSizes
  import opened DiffViews
  import Decimals
  import T = Tokens

  // ---------------------------------------------------------------- payloads field by field

  lemma {:induction false} FieldOf(key: string, value: Json)
    requires Plain(key)
    ensures FieldSize(Field(key, value)) == |key| + 3 + Size(value)
  {
    hide Size, FieldSize, Plain;
    FieldSizeParts(Field(key, value));
    PlainText(key);
  }

  lemma {:induction false} Summed(f: seq<Field>)
    ensures |f| > 0 ==> FieldsSize(f) == FieldSize(f[0]) + (if |f| == 1 then 0 else 1 + FieldsSize(f[1..]))
  {
    hide FieldsSize, FieldSize;
    if |f| > 0 {
      assert f == [f[0]] + f[1..];
      FieldsCons(f[0], f[1..]);
    }
  }

  lemma {:induction false} SevenFields(f: seq<Field>)
    requires |f| == 7
    ensures Size(Obj(f)) == 8 + FieldSize(f[0]) + FieldSize(f[1]) + FieldSize(f[2]) + FieldSize(f[3]) + FieldSize(f[4])
      + FieldSize(f[5]) + FieldSize(f[6])
  {
    hide Size, FieldsSize, FieldSize;
    Summed(f);
    Summed(f[1..]);
    Summed(f[2..]);
    Summed(f[3..]);
    Summed(f[4..]);
    Summed(f[5..]);
    Summed(f[6..]);
    ObjectSize(f);
  }

  lemma {:induction false} PlainIdNames()
    ensures Plain("baseline_condition_id") && Plain("current_condition_id") && Plain("project_id") && Plain("version")
  {
  }

  lemma {:induction false} PlainRowNames()
    ensures Plain("kind") && Plain("layer_key") && Plain("row_status") && Plain("row_ref")
  {
  }

  lemma {:induction false} PlainScopeNames()
    ensures Plain("basis_hash") && Plain("filters") && Plain("cell") && Plain("branch")
  {
  }

  lemma {:induction false} PlainCursorNames()
    ensures Plain("scope") && Plain("sort_key")
  {
  }

  lemma {:induction false} RowRefSize(r: T.RowRef)
    ensures Size(Obj(T.RowRefFields(r))) ==
      120 + Size(T.OptionalInt(r.baselineId)) + Size(T.OptionalInt(r.currentId)) + Size(Str(r.layerKey))
        + Size(Int(r.projectId)) + Size(Str(r.rowStatus))
  {
    hide Size, FieldSize, Plain, T.OptionalInt;
    PlainIdNames();
    PlainRowNames();
    SmallInt(T.TOKEN_VERSION);
    PlainText("row_ref");
    FieldOf("baseline_condition_id", T.OptionalInt(r.baselineId));
    FieldOf("current_condition_id", T.OptionalInt(r.currentId));
    FieldOf("kind", Str("row_ref"));
    FieldOf("layer_key", Str(r.layerKey));
    FieldOf("project_id", Int(r.projectId));
    FieldOf("row_status", Str(r.rowStatus));
    FieldOf("version", Int(T.TOKEN_VERSION));
    SevenFields(T.RowRefFields(r));
  }

  /** The size of everything the scopes of one layer share. */
  function SharedSize(s: T.Scope): nat
    requires !s.RootScope?
  {
    Size(Str(s.basisHash)) + Size(Obj(T.FiltersFields(s.filters))) + Size(Str(s.layerKey)) + Size(Int(s.projectId))
  }

  lemma {:induction false} SharedFields(s: T.Scope)
    requires !s.RootScope?
    ensures FieldSize(Field("basis_hash", Str(s.basisHash))) == 13 + Size(Str(s.basisHash))
    ensures FieldSize(Field("filters", Obj(T.FiltersFields(s.filters)))) == 10 + Size(Obj(T.FiltersFields(s.filters)))
    ensures FieldSize(Field("kind", Str("cell"))) == 13 && FieldSize(Field("kind", Str("branch"))) == 15
    ensures FieldSize(Field("layer_key", Str(s.layerKey))) == 12 + Size(Str(s.layerKey))
    ensures FieldSize(Field("project_id", Int(s.projectId))) == 13 + Size(Int(s.projectId))
    ensures FieldSize(Field("version", Int(T.TOKEN_VERSION))) == 11
  {
    hide Size, FieldSize, Plain, T.FiltersFields;
    PlainIdNames();
    PlainRowNames();
    PlainScopeNames();
    SmallInt(T.TOKEN_VERSION);
    PlainText("cell");
    PlainText("branch");
    FieldOf("basis_hash", Str(s.basisHash));
    FieldOf("filters", Obj(T.FiltersFields(s.filters)));
    FieldOf("kind", Str("cell"));
    FieldOf("kind", Str("branch"));
    FieldOf("layer_key", Str(s.layerKey));
    FieldOf("project_id", Int(s.projectId));
    FieldOf("version", Int(T.TOKEN_VERSION));
  }

  lemma {:induction false} CellScopeSize(s: T.Scope)
    requires s.CellScope?
    ensures Size(Obj(T.ScopeFields(s))) == 90 + SharedSize(s) + Size(Obj(T.RowRefFields(s.rowRef)))
  {
    hide Size, FieldSize, Plain, T.FiltersFields, T.RowRefFields;
    SharedFields(s);
    PlainRowNames();
    FieldOf("row_ref", Obj(T.RowRefFields(s.rowRef)));
    SevenFields(T.ScopeFields(s));
  }

  lemma {:induction false} SixFields(f: seq<Field>)
    requires |f| == 6
    ensures Size(Obj(f)) == 7 + FieldSize(f[0]) + FieldSize(f[1]) + FieldSize(f[2]) + FieldSize(f[3]) + FieldSize(f[4])
      + FieldSize(f[5])
  {
    hide Size, FieldsSize, FieldSize;
    Summed(f);
    Summed(f[1..]);
    Summed(f[2..]);
    Summed(f[3..]);
    Summed(f[4..]);
    Summed(f[5..]);
    ObjectSize(f);
  }

  lemma {:induction false} BranchScopeSize(s: T.Scope)
    requires s.BranchScope?
    ensures Size(Obj(T.ScopeFields(s))) == 81 + SharedSize(s)
  {
    hide Size, FieldSize, T.FiltersFields;
    SharedFields(s);
    SixFields(T.ScopeFields(s));
  }

  lemma {:induction false} FourFields(f: seq<Field>)
    requires |f| == 4
    ensures Size(Obj(f)) == 5 + FieldSize(f[0]) + FieldSize(f[1]) + FieldSize(f[2]) + FieldSize(f[3])
  {
    hide Size, FieldsSize, FieldSize;
    Summed(f);
    Summed(f[1..]);
    Summed(f[2..]);
    Summed(f[3..]);
    ObjectSize(f);
  }

  lemma {:induction false} CursorSize(c: T.Cursor)
    ensures Size(Obj(T.CursorFields(c))) ==
      42 + Size(Str(c.kind)) + Size(Obj(T.ScopeFields(c.scope))) + Size(Arr(c.sortKey))
  {
    hide Size, FieldSize, Plain, T.ScopeFields;
    PlainIdNames();
    PlainRowNames();
    PlainCursorNames();
    SmallInt(T.TOKEN_VERSION);
    FieldOf("kind", Str(c.kind));
    FieldOf("scope", Obj(T.ScopeFields(c.scope)));
    FieldOf("sort_key", Arr(c.sortKey));
    FieldOf("version", Int(T.TOKEN_VERSION));
    FourFields(T.CursorFields(c));
  }

  lemma {:induction false} PairSize(x: Json, y: Json)
    ensures Size(Arr([x, y])) == 3 + Size(x) + Size(y)
  {
    hide Size, ListSize;
    assert [x, y] == [x] + [y] && [y] == [y] + [];
    ItemsCons(x, [y]);
    ItemsCons(y, []);
    ArraySize([x, y]);
  }

  lemma {:induction false} TripleSize(x: Json, y: Json, z: Json)
    ensures Size(Arr([x, y, z])) == 4 + Size(x) + Size(y) + Size(z)
  {
    hide Size, ListSize;
    assert [x, y, z] == [x] + [y, z] && [y, z] == [y] + [z] && [z] == [z] + [];
    ItemsCons(x, [y, z]);
    ItemsCons(y, [z]);
    ItemsCons(z, []);
    ArraySize([x, y, z]);
  }

  /** The token of a payload is short exactly when the payload has at most 3072 bytes. */
  lemma {:induction false} ShortBytes(fields: seq<Field>)
    ensures TokenShort(T.EncodePayload(fields)) <==> Size(Obj(fields)) <= 3072
  {
    hide T.EncodePayload, Size;
    T.TokenFits(fields);
  }

  // ---------------------------------------------------------------- long texts

  /** `n` control characters, each of which takes six bytes in JSON. */
  function Controls(n: nat): (s: string)
    ensures |s| == n
  {
    seq(n, _ => '\U{1}')
  }

  lemma {:induction false} ControlsSize(n: nat)
    ensures TextSize(Escape(Controls(n))) == 6 * n
  {
    if n > 0 {
      assert Controls(n)[1..] == Controls(n - 1);
      ControlsSize(n - 1);
      var e := EscapeChar('\U{1}');
      assert e == "\\u0001";
      PlainControl();
      TextSizeConcat(e, Escape(Controls(n - 1)));
    }
  }

  lemma {:induction false} PlainControl()
    ensures TextSize("\\u0001") == 6
  {
    var e := "\\u0001";
    assert e == ['\\'] + "u0001";
    PlainSize("u0001");
    assert EncodeText(e) == EncodeChar('\\') + EncodeText(e[1..]);
    assert e[1..] == "u0001";
  }

  lemma {:induction false} ControlsText(n: nat)
    ensures Size(Str(Controls(n))) == 6 * n + 2
  {
    hide Size, Escape;
    ControlsSize(n);
    QuotedSize(Controls(n));
  }

  lemma {:induction false} ControlsValid(n: nat)
    requires 0 < n <= 256
    ensures T.ValidText(Controls(n), 256)
  {
    Decimals.StripFixed(Controls(n));
  }

  function ZeroHash(): string { "sha256:" + seq(64, _ => '0') }

  lemma {:induction false} ZeroHashSize()
    ensures Size(Str(ZeroHash())) == 73 && T.ValidBasisHash(ZeroHash())
  {
    hide Size;
    var h := ZeroHash();
    forall c | c in h ensures !Decimals.IsSpace(c) {}
    Decimals.StripFixed(h);
    PlainText(h);
  }

  const NO_FILTERS := T.Filters([], None, None, true)

  lemma {:induction false} NoFiltersSize()
    ensures Size(Obj(T.FiltersFields(NO_FILTERS))) == 89 && T.ValidFilters(NO_FILTERS)
  {
    hide Size, FieldSize, ListSize;
    BoolSize(true);
    NullSize();
    NoFields();
    ArraySize([]);
    FieldOf("category_code", Null);
    FieldOf("classification", Arr([]));
    FieldOf("include_unchanged", Bool(true));
    FieldOf("parameter_code", Null);
    FourFields(T.FiltersFields(NO_FILTERS));
  }

  // ---------------------------------------------------------------- small items fit

  predicate Short(s: string) { |s| <= 64 }

  predicate ShortOption(s: Option<string>) { s.Some? ==> Short(s.value) }

  predicate SmallMetadata(m: Option<Metadata>) {
    m.Some? ==>
      Short(m.value.code) && Short(m.value.valueType) && Short(m.value.displayName) && ShortOption(m.value.categoryCode)
        && 0 <= m.value.sortOrder < 10
  }

  predicate SmallItem(x: CellItem) {
    && Short(x.code) && 0 <= x.sortOrder < 10 && ShortOption(x.baselineValue) && ShortOption(x.currentValue)
    && SmallMetadata(x.baselineMetadata) && SmallMetadata(x.currentMetadata)
  }

  lemma {:induction false} MetadataWeight(m: Option<Metadata>)
    requires SmallMetadata(m)
    ensures Weight(MetadataJson(m)) <= 12002
  {
    hide FieldsWeight, Size;
    LiteralWeights();
    if m.Some? { FieldsWeightBound(MetadataJson(m).fields, 2000); }
  }

  lemma {:induction false} ItemWeight(x: CellItem)
    requires SmallItem(x)
    ensures Weight(ItemJson(x)) <= 117_002
  {
    hide FieldsWeight, Size, SmallMetadata, MetadataJson;
    LiteralWeights();
    MetadataWeight(x.baselineMetadata);
    MetadataWeight(x.currentMetadata);
    assert |ReasonName(x.reason)| <= 16 && |ClassName(x.classification)| <= 16;
    FieldsWeightBound(ItemJson(x).fields, 13_000);
  }

  /** Base64 digits need no escape. */
  lemma {:induction false} TokenSize(fields: seq<Field>)
    ensures Size(Str(T.EncodePayload(fields))) == |T.EncodePayload(fields)| + 2
    ensures |T.EncodePayload(fields)| <= 2 * Size(Obj(fields)) + 2
  {
    hide Encode64, DigitValue, Escape, Print, EncodeText;
    var b := EncodeText(Print(Obj(fields)));
    var t := Encode64(b);
    Encode64Shape(b);
    forall i | 0 <= i < |t| ensures 32 <= t[i] as int < 127 && t[i] != '"' && t[i] != '\\' { DigitIsPlain(t[i]); }
    PlainText(t);
  }

  lemma {:induction false} DigitIsPlain(c: char)
    requires DigitValue(c).Some?
    ensures 32 <= c as int < 127 && c != '"' && c != '\\'
  {
  }

  /** The parts of a scope's payload are smaller than the payload. */
  lemma {:induction false} RowRefSmaller(scope: T.Scope)
    requires scope.CellScope?
    ensures Size(Obj(T.RowRefFields(scope.rowRef))) <= Size(Obj(T.ScopeFields(scope)))
    ensures TokenShort(T.EncodeScope(scope)) ==> TokensShort(scope.rowRef, scope)
  {
    hide Size, SharedSize, T.RowRefFields, T.ScopeFields, TokenShort;
    CellScopeSize(scope);
    ShortBytes(T.ScopeFields(scope));
    ShortBytes(T.RowRefFields(scope.rowRef));
  }

  lemma {:induction false} CursorBound(scope: T.Scope, x: CellItem)
    requires scope.CellScope? && SmallItem(x)
    ensures Size(Obj(T.CursorFields(CellCursor(scope, x)))) <= Size(Obj(T.ScopeFields(scope))) + 2000
  {
    hide Size, T.ScopeFields;
    CursorSize(CellCursor(scope, x));
    PlainScopeNames();
    PlainText("cell");
    PairSize(Int(x.sortOrder), Str(x.code));
    SmallInt(x.sortOrder);
    StringBound(x.code);
  }

  /** Under a scope a request can name, a page of one small item is within the byte budget. */
  lemma {:induction false} SmallItemFits(scope: T.Scope, items: seq<CellItem>)
    requires scope.CellScope? && T.ValidScope(scope) && TokenShort(T.EncodeScope(scope))
    requires |items| > 0 && SmallItem(items[0])
    ensures Fits(scope, items, 1)
  {
    hide Size, FieldsSize, FieldSize, ListSize, T.ScopeFields, T.RowRefFields, T.CursorFields, T.EncodePayload,
         FieldWeight, T.ValidFilters, T.ValidRowRef, ItemJson, SmallItem, Weight;
    var x := items[0];
    var next := NextOf(items, 1);
    var scopeToken, rowToken := T.EncodeScope(scope), T.EncodeRowRef(scope.rowRef);
    TokenSize(T.ScopeFields(scope));
    T.TokenFits(T.ScopeFields(scope));
    TokenSize(T.RowRefFields(scope.rowRef));
    RowRefSmaller(scope);
    CursorBound(scope, x);
    TokenSize(T.CursorFields(CellCursor(scope, x)));
    ItemWeight(x);
    SizeAtMostWeight(ItemJson(x));
    ArraySize(ItemsJson(items[..1]));
    assert ItemsJson(items[..1]) == [ItemJson(x)] + [];
    ItemsCons(ItemJson(x), []);
    HashSize(scope.basisHash);
    NullSize();
    var f := [Field("scope", Str(scopeToken)), Field("basis_hash", Str(scope.basisHash)),
      Field("row_ref", Str(rowToken)),
              Field("items", Arr(ItemsJson(items[..1]))), Field("next_cursor", OptionalStr(CursorText(scope, next)))];
    ResponseIs(scope, items[..1], next);
    ObjectSize(f);
    FiveFields(f);
    StringBound("scope");
    StringBound("basis_hash");
    StringBound("row_ref");
    StringBound("items");
    StringBound("next_cursor");
  }

  lemma {:induction false} FiveFields(f: seq<Field>)
    requires |f| == 5
    ensures FieldsSize(f) == 9 + Size(Str(f[0].key)) + Size(f[0].value) + Size(Str(f[1].key)) + Size(f[1].value)
      + Size(Str(f[2].key)) + Size(f[2].value)
      + Size(Str(f[3].key)) + Size(f[3].value) + Size(Str(f[4].key)) + Size(f[4].value)
  {
    hide Size, FieldsSize, FieldSize;
    assert f == [f[0]] + f[1..] && f[1..] == [f[1]] + f[2..] && f[2..] == [f[2]] + f[3..] && f[3..] == [f[3]] + f[4..]
      && f[4..] == [f[4]] + [];
    FieldsCons(f[0], f[1..]);
    FieldsCons(f[1], f[2..]);
    FieldsCons(f[2], f[3..]);
    FieldsCons(f[3], f[4..]);
    FieldsCons(f[4], []);
    FieldSizeParts(f[0]);
    FieldSizeParts(f[1]);
    FieldSizeParts(f[2]);
    FieldSizeParts(f[3]);
    FieldSizeParts(f[4]);
  }

  lemma {:induction false} ResponseIs(scope: T.Scope, items: seq<CellItem>, next: Option<CellItem>)
    requires scope.CellScope?
    ensures ResponseSize(scope, items, next) == Size(Obj([
      Field("scope", Str(T.EncodeScope(scope))), Field("basis_hash", Str(scope.basisHash)),
      Field("row_ref", Str(T.EncodeRowRef(scope.rowRef))),
      Field("items", Arr(ItemsJson(items))), Field("next_cursor", OptionalStr(CursorText(scope, next)))]))
  {
    hide EncodeText, Print, T.EncodeScope, T.EncodeRowRef, ItemsJson, CursorText, OptionalStr;
  }

  lemma {:induction false} HashSize(hash: string)
    requires T.ValidBasisHash(hash)
    ensures Size(Str(hash)) <= 2000
  {
    hide Size;
    StringBound(hash);
  }
}
