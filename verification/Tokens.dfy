/**
 * Opaque scopes, row references and cursors (backend/app/features/backbone_diff/cursor.py).
 *
 * A token is base64url of the UTF-8 text of a JSON object. Decoding accepts a token only if the
 * decoded value encodes to the very same token. Tokens longer than 4096 characters are refused
 * on decode, although encoding produces them.
 */
module Tokens {
  import opened Results
  import opened Ordering
  import opened Json
  import opened Bytes
  import opened JsonSizes
  import Decimals

  const TOKEN_VERSION := 1
  const MAX_TOKEN_LENGTH := 4096

  /** `Unhashable`: a list or object where the code looks a text up in a set, which raises a TypeError. */
  datatype TokenError = Refused | Unhashable

  // ---------------------------------------------------------------- values

  datatype Filters = Filters(classification: seq<string>, categoryCode: Option<string>, parameterCode: Option<string>,
      includeUnchanged: bool)

  datatype RowRef = RowRef(projectId: int, layerKey: string, rowStatus: string, baselineId: Option<int>,
      currentId: Option<int>)

  datatype Scope =
    | RootScope(projectId: int, basisHash: string, filters: Filters)
    | BranchScope(projectId: int, layerKey: string, basisHash: string, filters: Filters)
    | CellScope(projectId: int, layerKey: string, basisHash: string, rowRef: RowRef, filters: Filters)

  datatype Cursor = Cursor(kind: string, scope: Scope, sortKey: seq<Json>)

  // ---------------------------------------------------------------- what the constructors accept

  predicate ValidText(s: string, maxLength: nat) { Decimals.Strip(s) == s && 0 < |s| <= maxLength }

  predicate ValidOptionalText(s: Option<string>, maxLength: nat) { s.Some? ==> ValidText(s.value, maxLength) }

  predicate IsLowerHex(c: char) { '0' <= c <= '9' || 'a' <= c <= 'f' }

  predicate ValidBasisHash(s: string) {
    && ValidText(s, 71) && |s| == 71 && s[..7] == "sha256:"
    && forall i :: 7 <= i < 71 ==> IsLowerHex(s[i])
  }

  predicate IsClassification(s: string) {
    s == "added" || s == "changed" || s == "cleared" || s == "removed" || s == "unchanged"
  }

  predicate ValidFilters(f: Filters) {
    && (forall i :: 0 <= i < |f.classification| ==>
      IsClassification(f.classification[i]) && ValidText(f.classification[i], 32))
    && (forall i, j :: 0 <= i < j < |f.classification| ==> TextLess(f.classification[i], f.classification[j]))
    && ValidOptionalText(f.categoryCode, 64)
    && ValidOptionalText(f.parameterCode, 64)
    && (!f.includeUnchanged ==> "unchanged" !in f.classification)
  }

  predicate StatusMatchesIds(status: string, baselineId: Option<int>, currentId: Option<int>) {
    || (status == "matched" && baselineId.Some? && currentId.Some?)
    || (status == "added" && baselineId.None? && currentId.Some?)
    || (status == "removed" && baselineId.Some? && currentId.None?)
  }

  predicate ValidId(id: Option<int>) { id.Some? ==> id.value >= 1 }

  predicate ValidRowRef(r: RowRef) {
    && r.projectId >= 1 && ValidText(r.layerKey, 256)
    && StatusMatchesIds(r.rowStatus, r.baselineId, r.currentId)
    && ValidId(r.baselineId) && ValidId(r.currentId)
  }

  predicate ValidScope(s: Scope) {
    && s.projectId >= 1 && ValidBasisHash(s.basisHash) && ValidFilters(s.filters)
    && (!s.RootScope? ==> ValidText(s.layerKey, 256))
    && (s.CellScope? ==> ValidRowRef(s.rowRef) && s.rowRef.projectId == s.projectId && s.rowRef.layerKey == s.layerKey)
  }

  predicate ValidSortKey(kind: string, key: seq<Json>) {
    || (kind == "root" && key == [])
    || (kind == "branch" && |key| == 3 && key[0].Int? && key[1].Int? && key[2].Int?
        && key[0].n >= 0 && 0 <= key[1].n <= 2 && key[2].n > 0)
    || (kind == "cell" && |key| == 2 && key[0].Int? && key[1].Str? && key[0].n >= 0 && key[1].s != "")
  }

  function KindOf(s: Scope): string {
    match s
    case RootScope(_, _, _) => "root"
    case BranchScope(_, _, _, _) => "branch"
    case CellScope(_, _, _, _, _) => "cell"
  }

  predicate ValidCursor(c: Cursor) {
    ValidScope(c.scope) && c.kind == KindOf(c.scope) && ValidSortKey(c.kind, c.sortKey)
  }

  // ---------------------------------------------------------------- payloads, with sorted keys

  function OptionalInt(n: Option<int>): Json { match n case None => Null case Some(m) => Int(m) }

  function Strs(values: seq<string>): (r: seq<Json>)
    ensures |r| == |values| && forall i :: 0 <= i < |r| ==> r[i] == Str(values[i])
  {
    if |values| == 0 then [] else [Str(values[0])] + Strs(values[1..])
  }

  function FiltersFields(f: Filters): seq<Field> {
    [Field("category_code", OptionalStr(f.categoryCode)), Field("classification", Arr(Strs(f.classification))),
     Field("include_unchanged", Bool(f.includeUnchanged)), Field("parameter_code", OptionalStr(f.parameterCode))]
  }

  function RowRefFields(r: RowRef): seq<Field> {
    [Field("baseline_condition_id", OptionalInt(r.baselineId)), Field("current_condition_id", OptionalInt(r.currentId)),
     Field("kind", Str("row_ref")), Field("layer_key", Str(r.layerKey)), Field("project_id", Int(r.projectId)),
     Field("row_status", Str(r.rowStatus)), Field("version", Int(TOKEN_VERSION))]
  }

  function ScopeFields(s: Scope): seq<Field> {
    match s
    case RootScope(projectId, basisHash, filters) =>
      [Field("basis_hash", Str(basisHash)), Field("filters", Obj(FiltersFields(filters))), Field("kind", Str("root")),
       Field("project_id", Int(projectId)), Field("version", Int(TOKEN_VERSION))]
    case BranchScope(projectId, layerKey, basisHash, filters) =>
      [Field("basis_hash", Str(basisHash)), Field("filters", Obj(FiltersFields(filters))), Field("kind", Str("branch")),
       Field("layer_key", Str(layerKey)), Field("project_id", Int(projectId)), Field("version", Int(TOKEN_VERSION))]
    case CellScope(projectId, layerKey, basisHash, rowRef, filters) =>
      [Field("basis_hash", Str(basisHash)), Field("filters", Obj(FiltersFields(filters))), Field("kind", Str("cell")),
       Field("layer_key", Str(layerKey)), Field("project_id", Int(projectId)),
       Field("row_ref", Obj(RowRefFields(rowRef))),
       Field("version", Int(TOKEN_VERSION))]
  }

  function CursorFields(c: Cursor): seq<Field> {
    [Field("kind", Str(c.kind)), Field("scope", Obj(ScopeFields(c.scope))), Field("sort_key", Arr(c.sortKey)),
      Field("version", Int(TOKEN_VERSION))]
  }

  // ---------------------------------------------------------------- tokens

  function EncodePayload(fields: seq<Field>): string { Encode64(EncodeText(Print(Obj(fields)))) }

  predicate SafeCharacters(t: string) { forall i :: 0 <= i < |t| ==> DigitValue(t[i]).Some? }

  function LoadPayload(t: string): Result<seq<Field>, TokenError> {
    match Decode64(t)
    case None => Err(Refused)
    case Some(bytes) =>
      match DecodeJsonBytes(bytes)
      case None => Err(Refused)
      case Some(text) =>
        match Loads(text)
        case Some(Obj(fields)) => Ok(fields)
        case _ => Err(Refused)
  }

  function DecodePayload(t: string): Result<seq<Field>, TokenError> {
    if |t| == 0 || |t| > MAX_TOKEN_LENGTH || !SafeCharacters(t) then Err(Refused) else LoadPayload(t)
  }

  function EncodeScope(s: Scope): string { EncodePayload(ScopeFields(s)) }

  function EncodeRowRef(r: RowRef): string { EncodePayload(RowRefFields(r)) }

  function EncodeCursor(c: Cursor): string { EncodePayload(CursorFields(c)) }

  // ---------------------------------------------------------------- checks on decoded values

  function Refuse(accepted: bool): (r: Result<(), TokenError>)
    ensures r.Ok? <==> accepted
  {
    if accepted then Ok(()) else Err(Refused)
  }

  function RequireInt(v: Option<Json>, minimum: int): Result<int, TokenError> {
    match v case Some(Int(n)) => if n < minimum then Err(Refused) else Ok(n) case _ => Err(Refused)
  }

  function RequireText(v: Option<Json>, maxLength: nat): Result<string, TokenError> {
    match v
    case Some(Str(s)) => var t := Decimals.Strip(s); if |t| == 0 || |t| > maxLength then Err(Refused) else Ok(t)
    case _ => Err(Refused)
  }

  function RequireOptionalText(v: Option<Json>, maxLength: nat): Result<Option<string>, TokenError> {
    if v.None? || v == Some(Null) then Ok(None)
    else
      var t :- RequireText(v, maxLength);
      Ok(Some(t))
  }

  function RequireBool(v: Option<Json>): Result<bool, TokenError> {
    match v case Some(Bool(b)) => Ok(b) case _ => Err(Refused)
  }

  function RequireTexts(items: seq<Json>, maxLength: nat): Result<seq<string>, TokenError> {
    if |items| == 0 then Ok([])
    else
      var first :- RequireText(Some(items[0]), maxLength);
      var rest :- RequireTexts(items[1..], maxLength);
      Ok([first] + rest)
  }

  /** `True == 1` and `1.0 == 1` in the source language. */
  predicate IsVersionOne(v: Option<Json>) {
    v == Some(Int(TOKEN_VERSION)) || v == Some(Bool(true)) || v == Some(Float(true))
  }

  function RequireBasisHash(v: Option<Json>): Result<string, TokenError> {
    var s :- RequireText(v, 71);
    var _ :- Refuse(|s| == 71 && s[..7] == "sha256:" && forall i :: 7 <= i < 71 ==> IsLowerHex(s[i]));
    Ok(s)
  }

  function RequireClassifications(v: Option<Json>): Result<seq<string>, TokenError> {
    match v
    case Some(Arr(items)) =>
      var values :- RequireTexts(items, 32);
      var _ :- Refuse(DistinctKeys(values, TextKey));
      var sorted := SortBy(values, TextKey);
      var _ :- Refuse(forall i :: 0 <= i < |sorted| ==> IsClassification(sorted[i]));
      Ok(sorted)
    case _ => Err(Refused)
  }

  function FiltersOf(v: Option<Json>): Result<Filters, TokenError> {
    match v
    case Some(Obj(fields)) =>
      var _ :- Refuse(ExactKeys(fields, ["category_code", "classification", "include_unchanged", "parameter_code"]));
      var classification :- RequireClassifications(Get(fields, "classification"));
      var categoryCode :- RequireOptionalText(Get(fields, "category_code"), 64);
      var parameterCode :- RequireOptionalText(Get(fields, "parameter_code"), 64);
      var includeUnchanged :- RequireBool(Get(fields, "include_unchanged"));
      var _ :- Refuse(includeUnchanged || "unchanged" !in classification);
      Ok(Filters(classification, categoryCode, parameterCode, includeUnchanged))
    case _ => Err(Refused)
  }

  /** A text that is looked up in a set of texts; a list or object cannot be hashed. */
  function RequireOneOf(v: Option<Json>, allowed: seq<string>): Result<string, TokenError> {
    match v
    case Some(Str(s)) => if s in allowed then Ok(s) else Err(Refused)
    case Some(Arr(_)) => Err(Unhashable)
    case Some(Obj(_)) => Err(Unhashable)
    case _ => Err(Refused)
  }

  function RequireId(v: Option<Json>): Result<Option<int>, TokenError> {
    if v.None? || v == Some(Null) then Ok(None)
    else
      var n :- RequireInt(v, 1);
      Ok(Some(n))
  }

  predicate Present(v: Option<Json>) { v.Some? && v != Some(Null) }

  function RowRefOf(v: Option<Json>): Result<RowRef, TokenError> {
    match v
    case Some(Obj(fields)) =>
      var _ :- Refuse(IsVersionOne(Get(fields, "version")) && Get(fields, "kind") == Some(Str("row_ref")));
      var rowStatus :- RequireOneOf(Get(fields, "row_status"), ["matched", "added", "removed"]);
      var _ :- Refuse(ExactKeys(fields,
        ["baseline_condition_id", "current_condition_id", "kind", "layer_key", "project_id", "row_status", "version"]));
      var baseline, current := Get(fields, "baseline_condition_id"), Get(fields, "current_condition_id");
      var _ :- Refuse(Present(baseline) == (rowStatus != "added") && Present(current) == (rowStatus != "removed"));
      var projectId :- RequireInt(Get(fields, "project_id"), 1);
      var layerKey :- RequireText(Get(fields, "layer_key"), 256);
      var baselineId :- RequireId(baseline);
      var currentId :- RequireId(current);
      Ok(RowRef(projectId, layerKey, rowStatus, baselineId, currentId))
    case _ => Err(Refused)
  }

  /** A known kind has exactly its own keys. */
  predicate KindHasItsKeys(fields: seq<Field>, kind: Option<Json>) {
    && (kind == Some(Str("root")) ==> ExactKeys(fields, ["basis_hash", "filters", "kind", "project_id", "version"]))
    && (kind == Some(Str("branch")) ==>
      ExactKeys(fields, ["basis_hash", "filters", "kind", "layer_key", "project_id", "version"]))
    && (kind == Some(Str("cell")) ==>
      ExactKeys(fields, ["basis_hash", "filters", "kind", "layer_key", "project_id", "row_ref", "version"]))
  }

  function ScopeOfKind(fields: seq<Field>, kind: Option<Json>, projectId: int, basisHash: string,
      filters: Filters): Result<Scope, TokenError> {
    if kind == Some(Str("root")) then Ok(RootScope(projectId, basisHash, filters))
    else if kind == Some(Str("branch")) then
      var layerKey :- RequireText(Get(fields, "layer_key"), 256);
      Ok(BranchScope(projectId, layerKey, basisHash, filters))
    else if kind == Some(Str("cell")) then
      var rowRef :- RowRefOf(Get(fields, "row_ref"));
      var layerKey :- RequireText(Get(fields, "layer_key"), 256);
      var _ :- Refuse(rowRef.projectId == projectId && rowRef.layerKey == layerKey);
      Ok(CellScope(projectId, layerKey, basisHash, rowRef, filters))
    else Err(Refused)
  }

  function ScopeOf(fields: seq<Field>): Result<Scope, TokenError> {
    var _ :- Refuse(IsVersionOne(Get(fields, "version")));
    var filters :- FiltersOf(Get(fields, "filters"));
    var kind := Get(fields, "kind");
    var _ :- Refuse(KindHasItsKeys(fields, kind));
    var projectId :- RequireInt(Get(fields, "project_id"), 1);
    var basisHash :- RequireBasisHash(Get(fields, "basis_hash"));
    ScopeOfKind(fields, kind, projectId, basisHash, filters)
  }

  predicate IsSortKeyItem(v: Json) { v.Null? || v.Int? || v.Str? || v.Bool? }

  function SortKeyOf(v: Option<Json>): Result<seq<Json>, TokenError> {
    match v
    case Some(Arr(items)) => if forall i :: 0 <= i < |items| ==> IsSortKeyItem(items[i]) then Ok(items)
      else Err(Refused)
    case Some(Null) => Ok([])
    case None => Ok([])
    case _ => Err(Refused)
  }

  function CursorOf(fields: seq<Field>): Result<Cursor, TokenError> {
    var _ :- Refuse(IsVersionOne(Get(fields, "version")));
    var kind :- RequireOneOf(Get(fields, "kind"), ["root", "branch", "cell"]);
    var scopeFields := Get(fields, "scope");
    var _ :- Refuse(scopeFields.Some? && scopeFields.value.Obj? && ExactKeys(fields,
      ["kind", "scope", "sort_key", "version"]));
    var scope :- ScopeOf(scopeFields.value.fields);
    var sortKey :- SortKeyOf(Get(fields, "sort_key"));
    var _ :- Refuse(kind == KindOf(scope) && ValidSortKey(kind, sortKey));
    Ok(Cursor(kind, scope, sortKey))
  }

  function DecodeScope(t: string): Result<Scope, TokenError> {
    var fields :- DecodePayload(t);
    var scope :- ScopeOf(fields);
    var _ :- Refuse(EncodeScope(scope) == t);
    Ok(scope)
  }

  function DecodeRowRef(t: string): Result<RowRef, TokenError> {
    var fields :- DecodePayload(t);
    var rowRef :- RowRefOf(Some(Obj(fields)));
    var _ :- Refuse(EncodeRowRef(rowRef) == t);
    Ok(rowRef)
  }

  function DecodeCursor(t: string): Result<Cursor, TokenError> {
    var fields :- DecodePayload(t);
    var cursor :- CursorOf(fields);
    var _ :- Refuse(EncodeCursor(cursor) == t);
    Ok(cursor)
  }

  // ---------------------------------------------------------------- objects are read back field by field

  lemma {:induction false} FiltersSorted(f: Filters)
    ensures SortedKeys(FiltersFields(f))
  {
    hide TextLess;
    FirstCharLess("category_code", "classification", 1);
    FirstCharLess("classification", "include_unchanged", 0);
    FirstCharLess("include_unchanged", "parameter_code", 0);
    AdjacentSorted(FiltersFields(f));
  }

  lemma {:induction false} RowRefSorted(r: RowRef)
    ensures SortedKeys(RowRefFields(r))
  {
    hide TextLess;
    FirstCharLess("baseline_condition_id", "current_condition_id", 0);
    FirstCharLess("current_condition_id", "kind", 0);
    FirstCharLess("kind", "layer_key", 0);
    FirstCharLess("layer_key", "project_id", 0);
    FirstCharLess("project_id", "row_status", 0);
    FirstCharLess("row_status", "version", 0);
    AdjacentSorted(RowRefFields(r));
  }

  lemma {:induction false} ScopeSorted(s: Scope)
    ensures SortedKeys(ScopeFields(s))
  {
    hide TextLess, FiltersFields, RowRefFields;
    FirstCharLess("basis_hash", "filters", 0);
    FirstCharLess("filters", "kind", 0);
    FirstCharLess("kind", "layer_key", 0);
    FirstCharLess("kind", "project_id", 0);
    FirstCharLess("layer_key", "project_id", 0);
    FirstCharLess("project_id", "row_ref", 0);
    FirstCharLess("project_id", "version", 0);
    FirstCharLess("row_ref", "version", 0);
    AdjacentSorted(ScopeFields(s));
  }

  lemma {:induction false} CursorSorted(c: Cursor)
    ensures SortedKeys(CursorFields(c))
  {
    hide TextLess, ScopeFields;
    FirstCharLess("kind", "scope", 0);
    FirstCharLess("scope", "sort_key", 1);
    FirstCharLess("sort_key", "version", 0);
    AdjacentSorted(CursorFields(c));
  }

  // ---------------------------------------------------------------- payloads are canonical JSON

  lemma {:induction false} FlatItems(items: seq<Json>)
    requires forall i :: 0 <= i < |items| ==> IsSortKeyItem(items[i])
    ensures CanonicalItems(items)
  {
    if |items| > 0 { FlatItems(items[1..]); }
  }

  lemma {:induction false} FiltersCanonical(f: Filters)
    ensures Canonical(Obj(FiltersFields(f)))
  {
    FiltersSorted(f);
    FlatItems(Strs(f.classification));
    hide SortedKeys, CanonicalItems, CanonicalFields, Strs;
    EachCanonical(FiltersFields(f));
  }

  lemma {:induction false} RowRefCanonical(r: RowRef)
    ensures Canonical(Obj(RowRefFields(r)))
  {
    RowRefSorted(r);
    hide SortedKeys, CanonicalItems, CanonicalFields;
    EachCanonical(RowRefFields(r));
  }

  lemma {:induction false} ScopeCanonical(s: Scope)
    ensures Canonical(Obj(ScopeFields(s)))
  {
    ScopeSorted(s);
    FiltersCanonical(s.filters);
    if s.CellScope? { RowRefCanonical(s.rowRef); }
    hide SortedKeys, CanonicalItems, CanonicalFields, FiltersFields, RowRefFields;
    EachCanonical(ScopeFields(s));
  }

  lemma {:induction false} CursorCanonical(c: Cursor)
    requires ValidSortKey(c.kind, c.sortKey)
    ensures Canonical(Obj(CursorFields(c)))
  {
    CursorSorted(c);
    ScopeCanonical(c.scope);
    FlatItems(c.sortKey);
    hide SortedKeys, CanonicalItems, CanonicalFields, ScopeFields;
    EachCanonical(CursorFields(c));
  }

  // ---------------------------------------------------------------- decoding what was encoded

  lemma {:induction false} ObjectText(fields: seq<Field>)
    ensures var text := Print(Obj(fields)); |text| >= 2 && text[0] == '{' && 0 < text[1] as int < 128
  {
    hide Escape;
    var inner := PrintFields(fields);
    assert Print(Obj(fields)) == "{" + inner + "}";
    if |fields| > 0 {
      assert PrintField(fields[0])[0] == '"';
      assert inner[0] == '"';
    } else {
      assert Print(Obj(fields)) == "{}";
    }
  }

  lemma {:induction false} LoadEncoded(fields: seq<Field>)
    requires Canonical(Obj(fields))
    ensures LoadPayload(EncodePayload(fields)) == Ok(fields)
    ensures SafeCharacters(EncodePayload(fields)) && |EncodePayload(fields)| > 0
  {
    var text := Print(Obj(fields));
    ObjectText(fields);
    LoadDumped(Obj(fields));
    DecodeObjectText(text);
    Decode64Encoded(EncodeText(text));
    Encode64Shape(EncodeText(text));
    hide Encode64, Decode64, EncodeText, DecodeJsonBytes, Print, Loads, Canonical;
    if |EncodePayload(fields)| == 0 {
      EmptyEncodesEmpty(EncodeText(text));
      EmptyText(text);
    }
  }

  lemma {:induction false} EmptyEncodesEmpty(b: seq<Byte>)
    requires |Encode64(b)| == 0
    ensures b == []
  {
  }

  lemma {:induction false} EmptyText(s: string)
    requires EncodeText(s) == []
    ensures s == ""
  {
  }

  lemma {:induction false} RequireTextValid(v: Option<Json>, maxLength: nat)
    ensures RequireText(v, maxLength).Ok? ==> ValidText(RequireText(v, maxLength).value, maxLength)
    ensures forall s :: v == Some(Str(s)) && ValidText(s, maxLength) ==> RequireText(v, maxLength) == Ok(s)
  {
    if v.Some? && v.value.Str? { Decimals.StripIdempotent(v.value.s); }
  }

  lemma {:induction false} TextsCons(x: Json, xs: seq<Json>, t: string, ts: seq<string>, maxLength: nat)
    requires RequireText(Some(x), maxLength) == Ok(t) && RequireTexts(xs, maxLength) == Ok(ts)
    ensures RequireTexts([x] + xs, maxLength) == Ok([t] + ts)
  {
    hide RequireText;
    assert ([x] + xs)[1..] == xs;
  }

  lemma {:induction false} TextsOf(values: seq<string>, maxLength: nat)
    requires forall i :: 0 <= i < |values| ==> ValidText(values[i], maxLength)
    ensures RequireTexts(Strs(values), maxLength) == Ok(values)
  {
    hide ValidText, RequireText;
    if |values| > 0 {
      var rest := values[1..];
      RequireTextValid(Some(Str(values[0])), maxLength);
      TextsOf(rest, maxLength);
      assert values == [values[0]] + rest;
      hide RequireTexts;
      TextsCons(Str(values[0]), Strs(rest), values[0], rest, maxLength);
    }
  }

  lemma {:induction false} TextsValid(items: seq<Json>, maxLength: nat)
    requires RequireTexts(items, maxLength).Ok?
    ensures forall i :: 0 <= i < |RequireTexts(items, maxLength).value| ==>
      ValidText(RequireTexts(items, maxLength).value[i], maxLength)
  {
    if |items| > 0 {
      hide ValidText, RequireText;
      RequireTextValid(Some(items[0]), maxLength);
      TextsValid(items[1..], maxLength);
    }
  }

  lemma {:induction false} TextKeyLess(a: string, b: string)
    ensures KeyLess([Txt(a)], [Txt(b)]) <==> TextLess(a, b)
  {
    TextTotal(a, b);
    assert [Txt(a)][1..] == [] && [Txt(b)][1..] == [];
  }

  lemma {:induction false} ClassificationsOf(f: Filters)
    requires ValidFilters(f)
    ensures RequireClassifications(Some(Arr(Strs(f.classification)))) == Ok(f.classification)
  {
    hide ValidText, RequireTexts, SortBy, KeyLess, ValidOptionalText, Strs, TextLess;
    var c := f.classification;
    TextsOf(c, 32);
    forall i, j | 0 <= i < j < |c| ensures KeyLess(TextKey(c[i]), TextKey(c[j])) { TextKeyLess(c[i], c[j]); }
    StrictIsSorted(c, TextKey);
    SortFixed(c, TextKey);
  }

  lemma {:induction false} ClassificationsValid(v: Option<Json>)
    requires RequireClassifications(v).Ok?
    ensures var c := RequireClassifications(v).value;
      && (forall i :: 0 <= i < |c| ==> IsClassification(c[i]) && ValidText(c[i], 32))
      && (forall i, j :: 0 <= i < j < |c| ==> TextLess(c[i], c[j]))
  {
    hide ValidText, RequireTexts, SortBy, KeyLess, TextLess, IsClassification;
    var values := RequireTexts(v.value.items, 32).value;
    var c := RequireClassifications(v).value;
    TextsValid(v.value.items, 32);
    SortProps(values, TextKey);
    forall i | 0 <= i < |c| ensures ValidText(c[i], 32) {
      MemberOfPermutation(values, c, i);
      var k := IndexOf(values, c[i]);
    }
    forall i, j | 0 <= i < j < |c| ensures TextLess(c[i], c[j]) { TextKeyLess(c[i], c[j]); }
  }

  lemma {:induction false} FiltersGets(f: Filters)
    ensures var fields := FiltersFields(f);
      && ExactKeys(fields, ["category_code", "classification", "include_unchanged", "parameter_code"])
      && Get(fields, "category_code") == Some(OptionalStr(f.categoryCode))
      && Get(fields, "classification") == Some(Arr(Strs(f.classification)))
      && Get(fields, "include_unchanged") == Some(Bool(f.includeUnchanged))
      && Get(fields, "parameter_code") == Some(OptionalStr(f.parameterCode))
  {
    FiltersSorted(f);
    hide Get, TextLess, SortedKeys, Strs, OptionalStr;
    var fields := FiltersFields(f);
    GetAt(fields, 0);
    GetAt(fields, 1);
    GetAt(fields, 2);
    GetAt(fields, 3);
  }

  lemma {:induction false} OptionalTextRead(s: Option<string>, maxLength: nat)
    requires ValidOptionalText(s, maxLength)
    ensures RequireOptionalText(Some(OptionalStr(s)), maxLength) == Ok(s)
  {
    hide ValidText, RequireText;
    RequireTextValid(Some(OptionalStr(s)), maxLength);
  }

  lemma {:induction false} FiltersRead(f: Filters)
    requires ValidFilters(f)
    ensures FiltersOf(Some(Obj(FiltersFields(f)))) == Ok(f)
  {
    ClassificationsOf(f);
    FiltersGets(f);
    OptionalTextRead(f.categoryCode, 64);
    OptionalTextRead(f.parameterCode, 64);
    hide FiltersFields, ExactKeys, ValidText, RequireOptionalText, RequireClassifications, Get, TextLess,
         IsClassification, Strs, OptionalStr;
  }

  lemma {:induction false} FiltersReadValid(v: Option<Json>)
    requires FiltersOf(v).Ok?
    ensures ValidFilters(FiltersOf(v).value)
  {
    hide ValidText, RequireText, RequireClassifications, Get, TextLess, IsClassification, ExactKeys;
    var fields := v.value.fields;
    ClassificationsValid(Get(fields, "classification"));
    RequireTextValid(Get(fields, "category_code"), 64);
    RequireTextValid(Get(fields, "parameter_code"), 64);
  }

  lemma {:induction false} RowRefRead(r: RowRef)
    requires ValidRowRef(r)
    ensures RowRefOf(Some(Obj(RowRefFields(r)))) == Ok(r)
  {
    RowRefSorted(r);
    hide ValidText, RequireText, Get, TextLess, SortedKeys;
    var fields := RowRefFields(r);
    GetAt(fields, 0);
    GetAt(fields, 1);
    GetAt(fields, 2);
    GetAt(fields, 3);
    GetAt(fields, 4);
    GetAt(fields, 5);
    GetAt(fields, 6);
    RequireTextValid(Some(fields[3].value), 256);
  }

  lemma {:induction false} RowRefReadValid(v: Option<Json>)
    requires RowRefOf(v).Ok?
    ensures ValidRowRef(RowRefOf(v).value)
  {
    hide ValidText, RequireText, Get, ExactKeys;
    var fields := v.value.fields;
    RequireTextValid(Get(fields, "layer_key"), 256);
  }

  lemma {:induction false} BasisHashRead(s: string)
    requires ValidBasisHash(s)
    ensures RequireBasisHash(Some(Str(s))) == Ok(s)
  {
    hide Decimals.Strip;
  }

  lemma {:induction false} BasisHashValid(v: Option<Json>)
    requires RequireBasisHash(v).Ok?
    ensures ValidBasisHash(RequireBasisHash(v).value)
  {
    hide RequireText;
    RequireTextValid(v, 71);
  }

  lemma {:induction false} ScopeGets(s: Scope)
    ensures var fields := ScopeFields(s);
      && Get(fields, "basis_hash") == Some(Str(s.basisHash))
      && Get(fields, "filters") == Some(Obj(FiltersFields(s.filters)))
      && Get(fields, "kind") == Some(Str(KindOf(s)))
      && Get(fields, "project_id") == Some(Int(s.projectId))
      && Get(fields, "version") == Some(Int(TOKEN_VERSION))
      && (!s.RootScope? ==> Get(fields, "layer_key") == Some(Str(s.layerKey)))
      && (s.CellScope? ==> Get(fields, "row_ref") == Some(Obj(RowRefFields(s.rowRef))))
  {
    ScopeSorted(s);
    hide Get, TextLess, SortedKeys, FiltersFields, RowRefFields;
    var fields := ScopeFields(s);
    GetAt(fields, 0);
    GetAt(fields, 1);
    GetAt(fields, 2);
    GetAt(fields, 3);
    GetAt(fields, 4);
    if !s.RootScope? { GetAt(fields, 5); }
    if s.CellScope? { GetAt(fields, 6); }
  }

  lemma {:induction false} ScopeKeys(s: Scope)
    ensures KindHasItsKeys(ScopeFields(s), Some(Str(KindOf(s))))
  {
    hide FiltersFields, RowRefFields;
    assert "root" != "branch" && "root" != "cell" && "branch" != "cell";
  }

  lemma {:induction false} RootRead(s: Scope, fields: seq<Field>)
    requires s.RootScope?
    ensures ScopeOfKind(fields, Some(Str(KindOf(s))), s.projectId, s.basisHash, s.filters) == Ok(s)
  {
  }

  lemma {:induction false} BranchRead(s: Scope, fields: seq<Field>)
    requires s.BranchScope? && RequireText(Get(fields, "layer_key"), 256) == Ok(s.layerKey)
    ensures ScopeOfKind(fields, Some(Str(KindOf(s))), s.projectId, s.basisHash, s.filters) == Ok(s)
  {
    hide Get, RequireText, RowRefOf;
    assert "root" != "branch";
  }

  lemma {:induction false} CellRead(s: Scope, fields: seq<Field>)
    requires s.CellScope? && RequireText(Get(fields, "layer_key"), 256) == Ok(s.layerKey)
    requires RowRefOf(Get(fields, "row_ref")) == Ok(s.rowRef) && s.rowRef.projectId == s.projectId
    requires s.rowRef.layerKey == s.layerKey
    ensures ScopeOfKind(fields, Some(Str(KindOf(s))), s.projectId, s.basisHash, s.filters) == Ok(s)
  {
    hide Get, RequireText, RowRefOf;
    assert "root" != "cell" && "branch" != "cell";
  }

  lemma {:induction false} ScopeKindRead(s: Scope)
    requires ValidScope(s)
    ensures ScopeOfKind(ScopeFields(s), Some(Str(KindOf(s))), s.projectId, s.basisHash, s.filters) == Ok(s)
  {
    ScopeGets(s);
    if s.CellScope? { RowRefRead(s.rowRef); }
    if !s.RootScope? { RequireTextValid(Some(Str(s.layerKey)), 256); }
    hide ScopeFields, ScopeOfKind, KindOf, ValidText, RequireText, Get, RowRefOf, RowRefFields, ValidBasisHash,
         ValidFilters, ValidRowRef;
    match s
    case RootScope(_, _, _) => RootRead(s, ScopeFields(s));
    case BranchScope(_, _, _, _) => BranchRead(s, ScopeFields(s));
    case CellScope(_, _, _, _, _) => CellRead(s, ScopeFields(s));
  }

  lemma {:induction false} ScopeRead(s: Scope)
    requires ValidScope(s)
    ensures ScopeOf(ScopeFields(s)) == Ok(s)
  {
    ScopeGets(s);
    ScopeKeys(s);
    ScopeKindRead(s);
    FiltersRead(s.filters);
    BasisHashRead(s.basisHash);
    hide ScopeFields, KindHasItsKeys, ScopeOfKind, Get, FiltersOf, FiltersFields, RowRefFields, RequireBasisHash,
         ValidBasisHash, ValidFilters, ValidRowRef, ValidText, KindOf;
  }

  lemma {:induction false} ScopeReadValid(fields: seq<Field>)
    requires ScopeOf(fields).Ok?
    ensures ValidScope(ScopeOf(fields).value)
  {
    hide ValidText, RequireText, Get, FiltersOf, RowRefOf, RequireBasisHash, KindHasItsKeys, ValidFilters, ValidRowRef,
         ValidBasisHash;
    FiltersReadValid(Get(fields, "filters"));
    BasisHashValid(Get(fields, "basis_hash"));
    var s := ScopeOf(fields).value;
    if !s.RootScope? { RequireTextValid(Get(fields, "layer_key"), 256); }
    if s.CellScope? { RowRefReadValid(Get(fields, "row_ref")); }
  }

  lemma {:induction false} CursorGets(c: Cursor)
    ensures var fields := CursorFields(c);
      && ExactKeys(fields, ["kind", "scope", "sort_key", "version"])
      && Get(fields, "kind") == Some(Str(c.kind))
      && Get(fields, "scope") == Some(Obj(ScopeFields(c.scope)))
      && Get(fields, "sort_key") == Some(Arr(c.sortKey))
      && Get(fields, "version") == Some(Int(TOKEN_VERSION))
  {
    CursorSorted(c);
    hide Get, TextLess, SortedKeys, ScopeFields;
    var fields := CursorFields(c);
    GetAt(fields, 0);
    GetAt(fields, 1);
    GetAt(fields, 2);
    GetAt(fields, 3);
  }

  lemma {:induction false} SortKeyFlat(kind: string, key: seq<Json>)
    requires ValidSortKey(kind, key)
    ensures SortKeyOf(Some(Arr(key))) == Ok(key)
    ensures RequireOneOf(Some(Str(kind)), ["root", "branch", "cell"]) == Ok(kind)
  {
    var kinds := ["root", "branch", "cell"];
    assert kinds[0] == "root" && kinds[1] == "branch" && kinds[2] == "cell";
  }

  lemma {:induction false} CursorRead(c: Cursor)
    requires ValidCursor(c)
    ensures CursorOf(CursorFields(c)) == Ok(c)
  {
    CursorGets(c);
    ScopeRead(c.scope);
    SortKeyFlat(c.kind, c.sortKey);
    hide Get, ScopeOf, ScopeFields, CursorFields, ValidScope, ExactKeys, ValidSortKey, SortKeyOf, RequireOneOf, KindOf;
  }

  lemma {:induction false} CursorReadValid(fields: seq<Field>)
    requires CursorOf(fields).Ok?
    ensures ValidCursor(CursorOf(fields).value)
  {
    hide Get, ScopeOf, ValidScope, ExactKeys, SortKeyOf, ValidSortKey, RequireOneOf, KindOf;
    ScopeReadValid(Get(fields, "scope").value.fields);
  }

  // ---------------------------------------------------------------- tokens and values correspond one to one

  /** A scope token decodes to `s` exactly when it is the token of the valid scope `s` and is short enough. */
  lemma {:induction false} ScopeTokens(t: string, s: Scope)
    ensures DecodeScope(t) == Ok(s) <==> ValidScope(s) && t == EncodeScope(s) && |t| <= MAX_TOKEN_LENGTH
  {
    hide ScopeOf, ValidScope, LoadPayload, SafeCharacters, EncodePayload;
    if ValidScope(s) && t == EncodeScope(s) {
      ScopeCanonical(s);
      LoadEncoded(ScopeFields(s));
      ScopeRead(s);
    }
    if DecodeScope(t) == Ok(s) { ScopeReadValid(DecodePayload(t).value); }
  }

  lemma {:induction false} RowRefTokens(t: string, r: RowRef)
    ensures DecodeRowRef(t) == Ok(r) <==> ValidRowRef(r) && t == EncodeRowRef(r) && |t| <= MAX_TOKEN_LENGTH
  {
    hide RowRefOf, ValidRowRef, LoadPayload, SafeCharacters, EncodePayload;
    if ValidRowRef(r) && t == EncodeRowRef(r) {
      RowRefCanonical(r);
      LoadEncoded(RowRefFields(r));
      RowRefRead(r);
    }
    if DecodeRowRef(t) == Ok(r) { RowRefReadValid(Some(Obj(DecodePayload(t).value))); }
  }

  lemma {:induction false} CursorTokens(t: string, c: Cursor)
    ensures DecodeCursor(t) == Ok(c) <==> ValidCursor(c) && t == EncodeCursor(c) && |t| <= MAX_TOKEN_LENGTH
  {
    hide CursorOf, ValidScope, LoadPayload, SafeCharacters, EncodePayload;
    if ValidCursor(c) && t == EncodeCursor(c) {
      CursorCanonical(c);
      LoadEncoded(CursorFields(c));
      CursorRead(c);
    }
    if DecodeCursor(t) == Ok(c) { CursorReadValid(DecodePayload(t).value); }
  }

  /** Different valid cursors have different tokens, whatever their length. */
  lemma {:induction false} CursorTokensIdentify(c: Cursor, d: Cursor)
    requires ValidCursor(c) && ValidCursor(d) && EncodeCursor(c) == EncodeCursor(d)
    ensures c == d
  {
    hide CursorOf, ValidScope, LoadPayload, SafeCharacters, EncodePayload;
    CursorCanonical(c);
    CursorCanonical(d);
    LoadEncoded(CursorFields(c));
    LoadEncoded(CursorFields(d));
    CursorRead(c);
    CursorRead(d);
  }

  /** A token is short enough exactly when the UTF-8 text of its payload has at most 3072 bytes. */
  lemma {:induction false} TokenFits(fields: seq<Field>)
    ensures |EncodePayload(fields)| <= MAX_TOKEN_LENGTH <==> Size(Obj(fields)) <= 3072
  {
    hide Encode64;
    Encode64Shape(EncodeText(Print(Obj(fields))));
  }

  // ---------------------------------------------------------------- tokens that end in a type error

  /** A list or an object, which the code cannot look up in a set. */
  predicate IsNested(v: Option<Json>) { v.Some? && (v.value.Arr? || v.value.Obj?) }

  /** A row reference of the right version and kind whose status is a list or an object. */
  predicate NestedRowStatus(v: Option<Json>) {
    && v.Some? && v.value.Obj?
    && IsVersionOne(Get(v.value.fields, "version"))
    && Get(v.value.fields, "kind") == Some(Str("row_ref"))
    && IsNested(Get(v.value.fields, "row_status"))
  }

  /** A cell scope that is sound up to its row reference and layer key, so that the row reference is read. */
  predicate ReadsRowRef(fields: seq<Field>) {
    && IsVersionOne(Get(fields, "version"))
    && FiltersOf(Get(fields, "filters")).Ok?
    && Get(fields, "kind") == Some(Str("cell"))
    && ExactKeys(fields, ["basis_hash", "filters", "kind", "layer_key", "project_id", "row_ref", "version"])
    && RequireInt(Get(fields, "project_id"), 1).Ok?
    && RequireBasisHash(Get(fields, "basis_hash")).Ok?
  }

  predicate NestedScopeStatus(fields: seq<Field>) { ReadsRowRef(fields) && NestedRowStatus(Get(fields, "row_ref")) }

  /** A cursor whose kind is a list or an object, or that is sound up to a scope with such a row status. */
  predicate NestedCursor(fields: seq<Field>) {
    && IsVersionOne(Get(fields, "version"))
    && (IsNested(Get(fields, "kind"))
        || (RequireOneOf(Get(fields, "kind"), ["root", "branch", "cell"]).Ok?
            && Get(fields, "scope").Some? && Get(fields, "scope").value.Obj?
            && ExactKeys(fields, ["kind", "scope", "sort_key", "version"])
            && NestedScopeStatus(Get(fields, "scope").value.fields)))
  }

  lemma {:induction false} RowRefUnhashable(v: Option<Json>)
    ensures RowRefOf(v) == Err(Unhashable) <==> NestedRowStatus(v)
  {
    hide Get, ExactKeys, RequireText;
    if v.Some? && v.value.Obj? { ScalarsRefused(Get(v.value.fields, "layer_key"), 256); }
  }

  lemma {:induction false} TextsRefused(items: seq<Json>, maxLength: nat)
    ensures RequireTexts(items, maxLength) != Err(Unhashable)
  {
    hide RequireText;
    if |items| > 0 {
      TextsRefused(items[1..], maxLength);
      assert RequireText(Some(items[0]), maxLength) != Err(Unhashable) by { ScalarsRefused(Some(items[0]), maxLength); }
    }
  }

  lemma {:induction false} ScalarsRefused(v: Option<Json>, maxLength: nat)
    ensures RequireText(v, maxLength) != Err(Unhashable) && RequireOptionalText(v, maxLength) != Err(Unhashable)
    ensures RequireBasisHash(v) != Err(Unhashable)
  {
    hide Decimals.Strip;
  }

  lemma {:induction false} FiltersRefused(v: Option<Json>)
    ensures FiltersOf(v) != Err(Unhashable)
  {
    hide Get, ExactKeys, RequireTexts, RequireOptionalText, SortBy, KeyLess, IsClassification;
    if v.Some? && v.value.Obj? {
      var fields := v.value.fields;
      var classification := Get(fields, "classification");
      if classification.Some? && classification.value.Arr? { TextsRefused(classification.value.items, 32); }
      ScalarsRefused(Get(fields, "category_code"), 64);
      ScalarsRefused(Get(fields, "parameter_code"), 64);
    }
  }

  lemma {:induction false} KindUnhashable(fields: seq<Field>, kind: Option<Json>, projectId: int, basisHash: string,
      filters: Filters)
    ensures ScopeOfKind(fields, kind, projectId, basisHash, filters) == Err(Unhashable) <==>
      kind == Some(Str("cell")) && NestedRowStatus(Get(fields, "row_ref"))
  {
    ScalarsRefused(Get(fields, "layer_key"), 256);
    RowRefUnhashable(Get(fields, "row_ref"));
    hide Get, RequireText, RowRefOf, NestedRowStatus;
    assert "root" != "branch" && "root" != "cell" && "branch" != "cell";
  }

  lemma {:induction false} CellHasItsKeys(fields: seq<Field>)
    ensures KindHasItsKeys(fields, Some(Str("cell"))) <==>
      ExactKeys(fields, ["basis_hash", "filters", "kind", "layer_key", "project_id", "row_ref", "version"])
  {
    hide ExactKeys;
    assert "root" != "cell" && "branch" != "cell";
  }

  lemma {:induction false} ScopeUnhashable(fields: seq<Field>)
    ensures ScopeOf(fields) == Err(Unhashable) <==> NestedScopeStatus(fields)
  {
    FiltersRefused(Get(fields, "filters"));
    ScalarsRefused(Get(fields, "basis_hash"), 71);
    CellHasItsKeys(fields);
    hide Get, ExactKeys, FiltersOf, RequireBasisHash, ScopeOfKind, KindHasItsKeys, NestedRowStatus;
    if FiltersOf(Get(fields, "filters")).Ok? && RequireInt(Get(fields, "project_id"), 1).Ok?
      && RequireBasisHash(Get(fields, "basis_hash")).Ok? {
      KindUnhashable(fields, Get(fields, "kind"), RequireInt(Get(fields, "project_id"), 1).value,
                     RequireBasisHash(Get(fields, "basis_hash")).value, FiltersOf(Get(fields, "filters")).value);
    }
  }

  lemma {:induction false} OneOfUnhashable(v: Option<Json>, allowed: seq<string>)
    ensures RequireOneOf(v, allowed) == Err(Unhashable) <==> IsNested(v)
  {
  }

  lemma {:induction false} CursorUnhashable(fields: seq<Field>)
    ensures CursorOf(fields) == Err(Unhashable) <==> NestedCursor(fields)
  {
    var scope := Get(fields, "scope");
    OneOfUnhashable(Get(fields, "kind"), ["root", "branch", "cell"]);
    if scope.Some? && scope.value.Obj? { ScopeUnhashable(scope.value.fields); }
    hide Get, ExactKeys, ScopeOf, NestedScopeStatus, ValidSortKey, KindOf, RequireOneOf, IsNested;
  }

  lemma {:induction false} PayloadRefused(t: string)
    ensures DecodePayload(t) != Err(Unhashable)
  {
    hide Decode64, DecodeJsonBytes, Loads, SafeCharacters;
  }

  /** A payload of well-formed text decodes to a type error exactly here. */
  lemma {:induction false} RowRefTypeErrors(t: string)
    ensures DecodeRowRef(t) == Err(Unhashable) <==>
      DecodePayload(t).Ok? && NestedRowStatus(Some(Obj(DecodePayload(t).value)))
  {
    PayloadRefused(t);
    hide RowRefOf, NestedRowStatus, DecodePayload, EncodeRowRef;
    if DecodePayload(t).Ok? { RowRefUnhashable(Some(Obj(DecodePayload(t).value))); }
  }

  lemma {:induction false} ScopeTypeErrors(t: string)
    ensures DecodeScope(t) == Err(Unhashable) <==> DecodePayload(t).Ok? && NestedScopeStatus(DecodePayload(t).value)
  {
    PayloadRefused(t);
    hide ScopeOf, NestedScopeStatus, DecodePayload, EncodeScope;
    if DecodePayload(t).Ok? { ScopeUnhashable(DecodePayload(t).value); }
  }

  lemma {:induction false} CursorTypeErrors(t: string)
    ensures DecodeCursor(t) == Err(Unhashable) <==> DecodePayload(t).Ok? && NestedCursor(DecodePayload(t).value)
  {
    PayloadRefused(t);
    hide CursorOf, NestedCursor, DecodePayload, EncodeCursor;
    if DecodePayload(t).Ok? { CursorUnhashable(DecodePayload(t).value); }
  }

  lemma {:induction false} ShortPayload(fields: seq<Field>)
    requires Canonical(Obj(fields)) && FieldsSize(fields) <= 3070
    ensures DecodePayload(EncodePayload(fields)) == Ok(fields)
  {
    hide LoadPayload, SafeCharacters, EncodePayload, FieldsSize, Canonical, Print, EncodeText;
    LoadEncoded(fields);
    ObjectSize(fields);
    TokenFits(fields);
  }

  /** {"kind":"row_ref","row_status":[],"version":1} */
  function ListStatus(): seq<Field> {
    [Field("kind", Str("row_ref")), Field("row_status", Arr([])), Field("version", Int(TOKEN_VERSION))]
  }

  /** {"kind":[],"version":1} */
  function ListKind(): seq<Field> { [Field("kind", Arr([])), Field("version", Int(TOKEN_VERSION))] }

  lemma {:induction false} SmallFields()
    ensures FieldSize(Field("kind", Str("row_ref"))) == 16 && FieldSize(Field("kind", Arr([]))) == 9
    ensures FieldSize(Field("row_status", Arr([]))) == 15 && FieldSize(Field("version", Int(TOKEN_VERSION))) == 11
  {
    hide Size, FieldSize, ListSize, TextSize;
    PlainText("kind");
    PlainText("row_ref");
    PlainText("row_status");
    PlainText("version");
    ArraySize([]);
    NoFields();
    SmallInt(TOKEN_VERSION);
    FieldSizeParts(Field("kind", Str("row_ref")));
    FieldSizeParts(Field("kind", Arr([])));
    FieldSizeParts(Field("row_status", Arr([])));
    FieldSizeParts(Field("version", Int(TOKEN_VERSION)));
  }

  lemma {:induction false} ListStatusPayload()
    ensures DecodePayload(EncodePayload(ListStatus())) == Ok(ListStatus()) && SortedKeys(ListStatus())
  {
    hide TextLess, CanonicalItems, CanonicalFields, FieldsSize, FieldSize, DecodePayload, EncodePayload;
    var f := ListStatus();
    FirstCharLess("kind", "row_status", 0);
    FirstCharLess("row_status", "version", 0);
    AdjacentSorted(f);
    EachCanonical(f) by { NoItems(); }
    assert f == [f[0]] + f[1..] && f[1..] == [f[1]] + f[2..] && f[2..] == [f[2]] + [];
    FieldsCons(f[0], f[1..]);
    FieldsCons(f[1], f[2..]);
    FieldsCons(f[2], []);
    SmallFields();
    ShortPayload(f);
  }

  lemma {:induction false} NoItems()
    ensures Canonical(Arr([]))
  {
  }

  lemma {:induction false} ListKindPayload()
    ensures DecodePayload(EncodePayload(ListKind())) == Ok(ListKind()) && SortedKeys(ListKind())
  {
    hide TextLess, CanonicalItems, CanonicalFields, FieldsSize, FieldSize, DecodePayload, EncodePayload;
    var f := ListKind();
    FirstCharLess("kind", "version", 0);
    AdjacentSorted(f);
    EachCanonical(f) by { NoItems(); }
    assert f == [f[0]] + f[1..] && f[1..] == [f[1]] + [];
    FieldsCons(f[0], f[1..]);
    FieldsCons(f[1], []);
    SmallFields();
    ShortPayload(f);
  }

  lemma {:induction false} ListStatusIsATypeError()
    ensures DecodeRowRef(EncodePayload(ListStatus())) == Err(Unhashable)
  {
    hide SortedKeys, Get, DecodePayload, EncodePayload, DecodeRowRef;
    ListStatusPayload();
    RowRefTypeErrors(EncodePayload(ListStatus()));
    GetAt(ListStatus(), 0);
    GetAt(ListStatus(), 1);
    GetAt(ListStatus(), 2);
  }

  lemma {:induction false} ListKindIsATypeError()
    ensures DecodeCursor(EncodePayload(ListKind())) == Err(Unhashable)
  {
    hide SortedKeys, Get, DecodePayload, EncodePayload, DecodeCursor, NestedScopeStatus, RequireOneOf, ExactKeys;
    ListKindPayload();
    CursorTypeErrors(EncodePayload(ListKind()));
    GetAt(ListKind(), 0);
    GetAt(ListKind(), 1);
  }
}
