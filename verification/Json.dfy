/**
 * JSON values as `json.dumps(..., ensure_ascii=False, separators=(",", ":"))` prints them and
 * `json.loads` reads them. An object is a list of fields; `Put` keeps the keys of a dictionary
 * strictly sorted, as `sort_keys=True` prints them. A number with a fraction or an exponent is a
 * float, of which only its equality with 1 matters.
 */
module Json {
  import opened Results
  import opened Ordering
  import opened Texts

  datatype Json = Null | Bool(b: bool) | Int(n: int) | Float(isOne: bool) | Str(s: string) | Arr(items: seq<Json>)
    | Obj(fields: seq<Field>)

  datatype Field = Field(key: string, value: Json)

  function OptionalStr(s: Option<string>): Json { match s case None => Null case Some(t) => Str(t) }

  // ---------------------------------------------------------------- printing

  function HexDigit(d: nat): char
    requires d < 16
  {
    if d < 10 then '0' + d as char else 'a' + (d - 10) as char
  }

  function EscapeChar(c: char): (r: string)
    ensures |r| > 0
  {
    if c == '"' then "\\\""
    else if c == '\\' then "\\\\"
    else if c == '\n' then "\\n"
    else if c == '\r' then "\\r"
    else if c == '\t' then "\\t"
    else if c as int == 12 then "\\f"
    else if c as int == 8 then "\\b"
    else if c as int < 32 then "\\u00" + [HexDigit(c as int / 16), HexDigit(c as int % 16)]
    else [c]
  }

  function Escape(s: string): string {
    if |s| == 0 then "" else EscapeChar(s[0]) + Escape(s[1..])
  }

  function PrintString(s: string): string { "\"" + Escape(s) + "\"" }

  /** Floats are never printed by the program; they stand here for some text. */
  function Print(v: Json): string
    decreases v
  {
    match v
    case Null => "null"
    case Bool(b) => if b then "true" else "false"
    case Int(n) => IntText(n)
    case Float(isOne) => if isOne then "1.0" else "0.5"
    case Str(s) => PrintString(s)
    case Arr(items) => "[" + PrintItems(items) + "]"
    case Obj(fields) => "{" + PrintFields(fields) + "}"
  }

  function PrintItems(items: seq<Json>): string
    decreases items
  {
    if |items| == 0 then ""
    else if |items| == 1 then Print(items[0])
    else Print(items[0]) + "," + PrintItems(items[1..])
  }

  function PrintField(f: Field): string
    decreases f
  {
    PrintString(f.key) + ":" + Print(f.value)
  }

  function PrintFields(fields: seq<Field>): string
    decreases fields
  {
    if |fields| == 0 then ""
    else if |fields| == 1 then PrintField(fields[0])
    else PrintField(fields[0]) + "," + PrintFields(fields[1..])
  }

  // ---------------------------------------------------------------- dictionaries

  /** Sets a key; a later value replaces an earlier one. */
  function Put(fields: seq<Field>, f: Field): seq<Field> {
    if |fields| == 0 then [f]
    else if fields[0].key == f.key then [f] + fields[1..]
    else if TextLess(f.key, fields[0].key) then [f] + fields
    else [fields[0]] + Put(fields[1..], f)
  }

  function PutAll(fields: seq<Field>, more: seq<Field>): seq<Field>
    decreases |more|
  {
    if |more| == 0 then fields else PutAll(Put(fields, more[0]), more[1..])
  }

  function Get(fields: seq<Field>, key: string): Option<Json> {
    if |fields| == 0 then None
    else if fields[0].key == key then Some(fields[0].value)
    else Get(fields[1..], key)
  }

  predicate SortedKeys(fields: seq<Field>) {
    forall i, j :: 0 <= i < j < |fields| ==> TextLess(fields[i].key, fields[j].key)
  }

  /** Every object in the value has strictly sorted keys, and there is no float in it. */
  predicate Canonical(v: Json)
    decreases v
  {
    match v
    case Arr(items) => CanonicalItems(items)
    case Obj(fields) => SortedKeys(fields) && CanonicalFields(fields)
    case Float(_) => false
    case _ => true
  }

  predicate CanonicalItems(items: seq<Json>)
    decreases items
  {
    |items| > 0 ==> Canonical(items[0]) && CanonicalItems(items[1..])
  }

  predicate CanonicalField(f: Field)
    decreases f
  {
    Canonical(f.value)
  }

  predicate CanonicalFields(fields: seq<Field>)
    decreases fields
  {
    |fields| > 0 ==> CanonicalField(fields[0]) && CanonicalFields(fields[1..])
  }

  /** Both lists of keys are strictly sorted, so equal lists are equal sets of keys. */
  predicate ExactKeys(fields: seq<Field>, required: seq<string>) {
    |fields| == |required| && forall i :: 0 <= i < |fields| ==> fields[i].key == required[i]
  }

  lemma {:induction false} GetAt(fields: seq<Field>, i: nat)
    requires SortedKeys(fields) && i < |fields|
    ensures Get(fields, fields[i].key) == Some(fields[i].value)
  {
    if i > 0 {
      TextTotal(fields[0].key, fields[i].key);
      GetAt(fields[1..], i - 1);
    }
  }

  lemma {:induction false} AdjacentSorted(fields: seq<Field>)
    requires forall i :: 0 <= i < |fields| - 1 ==> TextLess(fields[i].key, fields[i + 1].key)
    ensures SortedKeys(fields)
  {
    if |fields| > 1 {
      AdjacentSorted(fields[1..]);
      forall j | 1 <= j < |fields| ensures TextLess(fields[0].key, fields[j].key) {
        if j > 1 {
          assert TextLess(fields[1..][0].key, fields[1..][j - 1].key);
          TextTransitive(fields[0].key, fields[1].key, fields[j].key);
        }
      }
      forall i, j | 0 <= i < j < |fields| ensures TextLess(fields[i].key, fields[j].key) {
        if i > 0 { assert TextLess(fields[1..][i - 1].key, fields[1..][j - 1].key); }
      }
    }
  }

  lemma {:induction false} FirstCharLess(a: string, b: string, n: nat)
    requires n < |a| && n < |b| && a[..n] == b[..n] && a[n] < b[n]
    ensures TextLess(a, b)
  {
    if n > 0 {
      assert a[0] == a[..n][0] && b[0] == b[..n][0];
      assert a[1..][..n - 1] == a[..n][1..] && b[1..][..n - 1] == b[..n][1..];
      FirstCharLess(a[1..], b[1..], n - 1);
    }
  }

  lemma {:induction false} EachCanonical(fields: seq<Field>)
    requires forall i :: 0 <= i < |fields| ==> Canonical(fields[i].value)
    ensures CanonicalFields(fields)
  {
    hide Canonical;
    if |fields| > 0 { EachCanonical(fields[1..]); }
  }

  // ---------------------------------------------------------------- parsing

  datatype Parsed<+T> = Parsed(value: T, rest: string)

  predicate IsWhite(c: char) { c == ' ' || c == '\t' || c == '\n' || c == '\r' }

  function SkipWhite(t: string): (r: string)
    ensures |r| <= |t|
  {
    if |t| > 0 && IsWhite(t[0]) then SkipWhite(t[1..]) else t
  }

  function HexValue(c: char): Option<nat> {
    if '0' <= c <= '9' then Some(c as int - '0' as int)
    else if 'a' <= c <= 'f' then Some(c as int - 'a' as int + 10)
    else if 'A' <= c <= 'F' then Some(c as int - 'A' as int + 10)
    else None
  }

  /** Four hexadecimal digits. */
  function Hex4(t: string): Option<nat> {
    if |t| < 4 then None
    else
      match (HexValue(t[0]), HexValue(t[1]), HexValue(t[2]), HexValue(t[3]))
      case (Some(a), Some(b), Some(c), Some(d)) => Some(a * 4096 + b * 256 + c * 16 + d)
      case _ => None
  }

  /** A `\u` escape, or a surrogate pair of two; a lone surrogate is refused. */
  function ParseUnicode(t: string): (r: Option<Parsed<char>>)
    ensures r.Some? ==> |r.value.rest| < |t|
  {
    var high := Hex4(t);
    if high.None? then None
    else if high.value < 0xD800 || 0xE000 <= high.value < 0x10000 then
      Some(Parsed(high.value as char, t[4..]))
    else if high.value < 0xDC00 && |t| >= 6 && t[4] == '\\' && t[5] == 'u' then
      var low := Hex4(t[6..]);
      if low.Some? && 0xDC00 <= low.value < 0xE000 then
        Some(Parsed((0x10000 + (high.value - 0xD800) * 0x400 + (low.value - 0xDC00)) as char, t[10..]))
      else None
    else None
  }

  /** One character of a string body. */
  function ParseChar(t: string): (r: Option<Parsed<char>>)
    ensures r.Some? ==> |r.value.rest| < |t|
  {
    if |t| == 0 || t[0] as int < 32 then None
    else if t[0] != '\\' then Some(Parsed(t[0], t[1..]))
    else if |t| == 1 then None
    else if t[1] == 'u' then ParseUnicode(t[2..])
    else
      match t[1]
      case '"' => Some(Parsed('"', t[2..]))
      case '\\' => Some(Parsed('\\', t[2..]))
      case '/' => Some(Parsed('/', t[2..]))
      case 'n' => Some(Parsed('\n', t[2..]))
      case 'r' => Some(Parsed('\r', t[2..]))
      case 't' => Some(Parsed('\t', t[2..]))
      case 'f' => Some(Parsed(12 as char, t[2..]))
      case 'b' => Some(Parsed(8 as char, t[2..]))
      case _ => None
  }

  /** The rest of a string after its opening quote. */
  function ParseString(t: string): (r: Option<Parsed<string>>)
    ensures r.Some? ==> |r.value.rest| < |t|
    decreases |t|
  {
    if |t| == 0 then None
    else if t[0] == '"' then Some(Parsed("", t[1..]))
    else
      match ParseChar(t)
      case None => None
      case Some(Parsed(c, rest)) =>
        match ParseString(rest)
        case None => None
        case Some(Parsed(s, rest')) => Some(Parsed([c] + s, rest'))
  }

  /** The longest run of digits, read after `value`. */
  function ParseDigits(t: string, value: nat): (r: Parsed<nat>)
    ensures |r.rest| <= |t|
  {
    if |t| > 0 && IsDigit(t[0]) then ParseDigits(t[1..], value * 10 + (t[0] as int - '0' as int)) else Parsed(value, t)
  }

  /** `0`, or digits without a leading zero. */
  function ParseNat(t: string): (r: Option<Parsed<nat>>)
    ensures r.Some? ==> |r.value.rest| < |t|
  {
    if |t| == 0 || !IsDigit(t[0]) then None
    else if t[0] == '0' then Some(Parsed(0, t[1..]))
    else Some(ParseDigits(t[1..], t[0] as int - '0' as int))
  }

  /** The digits behind a point, if the text goes on with a point and a digit. */
  function FractionOf(t: string): (r: Parsed<string>)
    ensures |r.rest| <= |t|
  {
    if |t| >= 2 && t[0] == '.' && IsDigit(t[1]) then
      var rest := ParseDigits(t[1..], 0).rest;
      Parsed(t[1..|t| - |rest|], rest)
    else Parsed("", t)
  }

  /** An exponent, if the text goes on with one. */
  function ExponentOf(t: string): (r: Parsed<Option<int>>)
    ensures |r.rest| <= |t|
  {
    if |t| == 0 || (t[0] != 'e' && t[0] != 'E') then Parsed(None, t)
    else
      var signed := |t| >= 2 && (t[1] == '-' || t[1] == '+');
      var digits := if signed then t[2..] else t[1..];
      if |digits| == 0 || !IsDigit(digits[0]) then Parsed(None, t)
      else
        var e := ParseDigits(digits, 0);
        Parsed(Some(if signed && t[1] == '-' then -(e.value as int) else e.value), e.rest)
  }

  /**
   * The nearest double of `mantissa * 10^exponent` is 1: the number is at most 2^-54 below and at
   * most 2^-53 above it, where ties round to the even 1.
   */
  predicate RoundsToOne(mantissa: nat, exponent: int) {
    if exponent >= 0 then mantissa * Pow10(exponent) == 1
    else
      var unit := Pow10(-exponent);
      (0x40_0000_0000_0000 - 1) * unit <= mantissa * 0x40_0000_0000_0000
        && mantissa * 0x20_0000_0000_0000 <= (0x20_0000_0000_0000 + 1) * unit
  }

  /** A number after its sign: an integer, or a float when a fraction or an exponent follows. */
  function ParseNumber(t: string, negative: bool): (r: Option<Parsed<Json>>)
    ensures r.Some? ==> |r.value.rest| < |t|
  {
    match ParseNat(t)
    case None => None
    case Some(Parsed(n, rest)) =>
      var fraction := FractionOf(rest);
      var exponent := ExponentOf(fraction.rest);
      if fraction.value == "" && exponent.value.None? then Some(Parsed(Int(if negative then -(n as int) else n), rest))
      else
        var mantissa := ParseDigits(fraction.value, n).value;
        var power := (if exponent.value.Some? then exponent.value.value else 0) - |fraction.value|;
        Some(Parsed(Float(!negative && RoundsToOne(mantissa, power)), exponent.rest))
  }

  predicate StartsWith(t: string, word: string) { |t| >= |word| && t[..|word|] == word }

  function ParseValue(t: string): (r: Option<Parsed<Json>>)
    ensures r.Some? ==> |r.value.rest| < |t|
    decreases |t|, 0
  {
    if |t| == 0 then None
    else if StartsWith(t, "null") then Some(Parsed(Null, t[4..]))
    else if StartsWith(t, "true") then Some(Parsed(Bool(true), t[4..]))
    else if StartsWith(t, "false") then Some(Parsed(Bool(false), t[5..]))
    else if t[0] == '"' then
      match ParseString(t[1..]) case None => None case Some(Parsed(s, rest)) => Some(Parsed(Str(s), rest))
    else if StartsWith(t, "NaN") then Some(Parsed(Float(false), t[3..]))
    else if StartsWith(t, "Infinity") then Some(Parsed(Float(false), t[8..]))
    else if StartsWith(t, "-Infinity") then Some(Parsed(Float(false), t[9..]))
    else if t[0] == '-' then ParseNumber(t[1..], true)
    else if t[0] == '[' then
      var body := SkipWhite(t[1..]);
      if |body| > 0 && body[0] == ']' then Some(Parsed(Arr([]), body[1..]))
      else match ParseItems(body) case None => None case Some(Parsed(items, rest)) => Some(Parsed(Arr(items), rest))
    else if t[0] == '{' then
      var body := SkipWhite(t[1..]);
      if |body| > 0 && body[0] == '}' then Some(Parsed(Obj([]), body[1..]))
      else match ParseFields(body) case None => None case Some(Parsed(fields,
        rest)) => Some(Parsed(Obj(PutAll([], fields)), rest))
    else ParseNumber(t, false)
  }

  /** One or more values and the closing bracket. */
  function ParseItems(t: string): (r: Option<Parsed<seq<Json>>>)
    ensures r.Some? ==> |r.value.rest| < |t|
    decreases |t|, 1
  {
    match ParseValue(t)
    case None => None
    case Some(Parsed(v, after)) =>
      var rest := SkipWhite(after);
      if |rest| == 0 then None
      else if rest[0] == ']' then Some(Parsed([v], rest[1..]))
      else if rest[0] != ',' then None
      else match ParseItems(SkipWhite(rest[1..]))
        case None => None
        case Some(Parsed(vs, end)) => Some(Parsed([v] + vs, end))
  }

  function ParseField(t: string): (r: Option<Parsed<Field>>)
    ensures r.Some? ==> |r.value.rest| < |t|
    decreases |t|, 1
  {
    if |t| == 0 || t[0] != '"' then None
    else match ParseString(t[1..])
      case None => None
      case Some(Parsed(key, after)) =>
        var colon := SkipWhite(after);
        if |colon| == 0 || colon[0] != ':' then None
        else match ParseValue(SkipWhite(colon[1..]))
          case None => None
          case Some(Parsed(v, rest)) => Some(Parsed(Field(key, v), rest))
  }

  function ParseFields(t: string): (r: Option<Parsed<seq<Field>>>)
    ensures r.Some? ==> |r.value.rest| < |t|
    decreases |t|, 2
  {
    match ParseField(t)
    case None => None
    case Some(Parsed(f, after)) =>
      var rest := SkipWhite(after);
      if |rest| == 0 then None
      else if rest[0] == '}' then Some(Parsed([f], rest[1..]))
      else if rest[0] != ',' then None
      else match ParseFields(SkipWhite(rest[1..]))
        case None => None
        case Some(Parsed(fs, end)) => Some(Parsed([f] + fs, end))
  }

  /** json.loads */
  function Loads(t: string): Option<Json> {
    match ParseValue(SkipWhite(t))
    case None => None
    case Some(Parsed(v, rest)) => if |SkipWhite(rest)| == 0 then Some(v) else None
  }

  // ---------------------------------------------------------------- reading back what was printed

  lemma {:induction false} ParseEscapedChar(c: char, t: string)
    ensures ParseChar(EscapeChar(c) + t) == Some(Parsed(c, t))
    ensures EscapeChar(c)[0] != '"'
  {
    var e := EscapeChar(c) + t;
    if |EscapeChar(c)| == 6 {
      assert e[2..] == ['0', '0', HexDigit(c as int / 16), HexDigit(c as int % 16)] + t;
      assert e[2..][4..] == t;
      assert Hex4(e[2..]) == Some(c as int);
    } else if |EscapeChar(c)| == 2 {
      assert e[2..] == t;
    } else {
      assert e[1..] == t;
    }
  }

  lemma {:induction false} ParseEscaped(s: string, t: string)
    ensures ParseString(Escape(s) + "\"" + t) == Some(Parsed(s, t))
  {
    hide ParseChar, EscapeChar;
    if |s| == 0 {
      assert Escape(s) + "\"" + t == "\"" + t;
    } else {
      var tail := Escape(s[1..]) + "\"" + t;
      assert Escape(s) + "\"" + t == EscapeChar(s[0]) + tail;
      ParseEscapedChar(s[0], tail);
      ParseEscaped(s[1..], t);
      assert s == [s[0]] + s[1..];
    }
  }

  /** The text does not continue a number. */
  predicate EndsNumber(t: string) { |t| == 0 || (!IsDigit(t[0]) && t[0] != '.' && t[0] != 'e' && t[0] != 'E') }

  lemma {:induction false} ParseDigitsAppend(d: string, value: nat, t: string)
    requires forall i :: 0 <= i < |d| ==> IsDigit(d[i])
    ensures ParseDigits(d + t, value) == ParseDigits(t, ParseDigits(d, value).value)
    ensures ParseDigits(d, value).rest == ""
  {
    if |d| > 0 {
      assert (d + t)[1..] == d[1..] + t;
      ParseDigitsAppend(d[1..], value * 10 + (d[0] as int - '0' as int), t);
    } else {
      assert d + t == t;
    }
  }

  lemma {:induction false} DigitsOfNat(n: nat)
    ensures ParseDigits(NatText(n), 0).value == n
  {
    if n >= 10 {
      var d := [DigitChar(n % 10)];
      DigitsOfNat(n / 10);
      ParseDigitsAppend(NatText(n / 10), 0, d);
      assert d[1..] == "";
      assert ParseDigits(d, n / 10).value == n;
    } else {
      var d := [DigitChar(n)];
      assert NatText(n) == d && d[1..] == "";
      assert ParseDigits(d[1..], n) == Parsed(n, "");
    }
  }

  lemma {:induction false} ParsePrintedNat(n: nat, t: string)
    requires EndsNumber(t)
    ensures ParseNat(NatText(n) + t) == Some(Parsed(n, t))
  {
    var d := NatText(n);
    var text := d + t;
    DigitsOfNat(n);
    hide NatText, ParseDigits;
    if n == 0 {
      assert text[0] == '0' && text[1..] == t;
    } else {
      assert text[0] == d[0] && text[1..] == d[1..] + t;
      FirstDigit(d);
      StopsAt(t, n);
      ParseDigitsAppend(d[1..], d[0] as int - '0' as int, t);
    }
  }

  lemma {:induction false} FirstDigit(d: string)
    requires |d| > 0 && IsDigit(d[0])
    ensures ParseDigits(d, 0) == ParseDigits(d[1..], d[0] as int - '0' as int)
  {
  }

  lemma {:induction false} StopsAt(t: string, value: nat)
    requires EndsNumber(t)
    ensures ParseDigits(t, value) == Parsed(value, t)
  {
  }

  lemma {:induction false} FirstDiffers(text: string, word: string)
    requires |text| > 0 && |word| > 0 && text[0] != word[0]
    ensures !StartsWith(text, word)
  {
    if |text| >= |word| { assert text[..|word|][0] == text[0]; }
  }

  lemma {:induction false} NotAWord(text: string)
    requires |text| > 0 && IsDigit(text[0])
    ensures !StartsWith(text, "null") && !StartsWith(text, "true") && !StartsWith(text, "false")
    ensures !StartsWith(text, "NaN") && !StartsWith(text, "Infinity") && !StartsWith(text, "-Infinity")
  {
    hide StartsWith;
    FirstDiffers(text, "null");
    FirstDiffers(text, "true");
    FirstDiffers(text, "false");
    FirstDiffers(text, "NaN");
    FirstDiffers(text, "Infinity");
    FirstDiffers(text, "-Infinity");
  }

  lemma {:induction false} NegativeNotAWord(text: string)
    requires |text| > 0 && IsDigit(text[0])
    ensures !StartsWith("-" + text, "null") && !StartsWith("-" + text, "true") && !StartsWith("-" + text, "false")
    ensures !StartsWith("-" + text, "NaN") && !StartsWith("-" + text, "Infinity")
    ensures !StartsWith("-" + text, "-Infinity")
  {
    var t := "-" + text;
    assert t[1] == text[0];
    if |t| >= 9 { assert t[..9][1] == text[0] && "-Infinity"[1] == 'I'; }
    hide StartsWith;
    FirstDiffers(t, "null");
    FirstDiffers(t, "true");
    FirstDiffers(t, "false");
    FirstDiffers(t, "NaN");
    FirstDiffers(t, "Infinity");
  }

  /** Digits that end the number are an integer. */
  lemma {:induction false} WholeNumber(text: string, n: nat, t: string)
    requires ParseNat(text) == Some(Parsed(n, t)) && EndsNumber(t)
    ensures ParseNumber(text, false) == Some(Parsed(Int(n), t))
    ensures ParseNumber(text, true) == Some(Parsed(Int(-(n as int)), t))
  {
    hide ParseNat, RoundsToOne, ParseDigits;
    assert FractionOf(t) == Parsed("", t) && ExponentOf(t) == Parsed(None, t);
  }

  lemma {:induction false} NumberValue(text: string, n: nat, t: string)
    requires ParseNat(text) == Some(Parsed(n, t)) && EndsNumber(t)
    ensures ParseValue(text) == Some(Parsed(Int(n), t))
    ensures ParseValue("-" + text) == Some(Parsed(Int(-(n as int)), t))
  {
    assert |text| > 0 && IsDigit(text[0]);
    hide ParseNat, ParseNumber, ParseString, ParseItems, ParseFields, StartsWith;
    NotAWord(text);
    NegativeNotAWord(text);
    WholeNumber(text, n, t);
    assert ("-" + text)[1..] == text;
  }

  lemma {:induction false} ParsePrintedInt(n: int, t: string)
    requires EndsNumber(t)
    ensures ParseValue(IntText(n) + t) == Some(Parsed(Int(n), t))
  {
    hide ParseNat, ParseValue, NatText;
    var m := if n < 0 then -n else n;
    ParsePrintedNat(m, t);
    NumberValue(NatText(m) + t, m, t);
    assert "-" + NatText(m) + t == "-" + (NatText(m) + t);
  }

  lemma {:induction false} PrintStarts(v: Json)
    ensures |Print(v)| > 0 && !IsWhite(Print(v)[0]) && Print(v)[0] != ']' && Print(v)[0] != '}'
  {
    hide NatText, PrintItems, PrintFields, Escape;
    if v.Int? && v.n >= 0 { assert IsDigit(NatText(v.n)[0]); }
  }

  lemma {:induction false} StringValue(s: string, t: string)
    ensures ParseValue(PrintString(s) + t) == Some(Parsed(Str(s), t))
  {
    hide ParseString, ParseItems, ParseFields, ParseNat, ParseNumber, Escape, StartsWith;
    OpensNoWord(PrintString(s) + t);
    ParseEscaped(s, t);
    assert (PrintString(s) + t)[1..] == Escape(s) + "\"" + t;
  }

  /** Parsing a printed canonical value gives it back and leaves what follows. */
  lemma {:induction false} ParsePrinted(v: Json, t: string)
    requires Canonical(v) && EndsNumber(t)
    ensures ParseValue(Print(v) + t) == Some(Parsed(v, t))
    decreases v
  {
    hide ParseValue, ParseItems, ParseFields, ParseNat, ParseNumber, ParseString, NatText, PrintItems, PrintFields,
         PutAll, SkipWhite;
    match v
    case Null => LiteralValue(v, t);
    case Bool(b) => LiteralValue(v, t);
    case Int(n) => ParsePrintedInt(n, t);
    case Str(s) => StringValue(s, t);
    case Arr(items) =>
      ParsePrintedItems(items, t);
      ItemsStart(items, t);
      BracketedItems(items, t);
    case Obj(fields) =>
      ParsePrintedFields(fields, t);
      FieldsStart(fields, t);
      PutAllSorted([], fields);
      assert [] + fields == fields;
      BracedFields(fields, t);
  }

  lemma {:induction false} LiteralValue(v: Json, t: string)
    requires v.Null? || v.Bool?
    ensures ParseValue(Print(v) + t) == Some(Parsed(v, t))
  {
    hide ParseItems, ParseFields, ParseNat, ParseNumber, ParseString;
    var text := Print(v) + t;
    match v
    case Null => assert text[..4] == "null" && text[4..] == t;
    case Bool(b) =>
      if b { assert text[..4] == "true" && text[4..] == t; } else {
        assert text[0] == 'f' && text[..5] == "false" && text[5..] == t;
      }
  }

  /** A bracket, a brace or a quote starts no literal word. */
  lemma {:induction false} OpensNoWord(text: string)
    requires |text| > 0 && (text[0] == '[' || text[0] == '{' || text[0] == '"')
    ensures !StartsWith(text, "null") && !StartsWith(text, "true") && !StartsWith(text, "false")
    ensures !StartsWith(text, "NaN") && !StartsWith(text, "Infinity") && !StartsWith(text, "-Infinity")
  {
    hide StartsWith;
    FirstDiffers(text, "null");
    FirstDiffers(text, "true");
    FirstDiffers(text, "false");
    FirstDiffers(text, "NaN");
    FirstDiffers(text, "Infinity");
    FirstDiffers(text, "-Infinity");
  }

  lemma {:induction false} BracketedItems(items: seq<Json>, t: string)
    requires var body := PrintItems(items) + "]" + t;
      && SkipWhite(body) == body
      && (body[0] == ']' ==> items == [] && body[1..] == t)
      && (body[0] != ']' ==> ParseItems(body) == Some(Parsed(items, t)))
    ensures ParseValue(Print(Arr(items)) + t) == Some(Parsed(Arr(items), t))
  {
    hide ParseItems, ParseFields, ParseNat, ParseNumber, ParseString, PrintItems, SkipWhite, StartsWith;
    var text := Print(Arr(items)) + t;
    OpensNoWord(text);
    assert text[0] == '[' && text[1..] == PrintItems(items) + "]" + t;
  }

  lemma {:induction false} BracedFields(fields: seq<Field>, t: string)
    requires var body := PrintFields(fields) + "}" + t;
      && SkipWhite(body) == body
      && (body[0] == '}' ==> fields == [] && body[1..] == t)
      && (body[0] != '}' ==> ParseFields(body) == Some(Parsed(fields, t)))
    requires PutAll([], fields) == fields
    ensures ParseValue(Print(Obj(fields)) + t) == Some(Parsed(Obj(fields), t))
  {
    hide ParseItems, ParseFields, ParseNat, ParseNumber, ParseString, PrintFields, SkipWhite, PutAll, StartsWith;
    var text := Print(Obj(fields)) + t;
    OpensNoWord(text);
    assert text[0] == '{' && text[1..] == PrintFields(fields) + "}" + t;
  }

  lemma {:induction false} ItemsStart(items: seq<Json>, t: string)
    ensures var body := PrintItems(items) + "]" + t;
      |body| > 0 && SkipWhite(body) == body && (body[0] == ']' <==> items == []) && (items == [] ==> body[1..] == t)
  {
    hide Print;
    if |items| > 0 { PrintStarts(items[0]); }
  }

  lemma {:induction false} FieldsStart(fields: seq<Field>, t: string)
    ensures var body := PrintFields(fields) + "}" + t;
      |body| > 0 && SkipWhite(body) == body && (body[0] == '}' <==> fields == []) && (fields == [] ==> body[1..] == t)
  {
    hide Print, Escape;
  }

  lemma {:induction false} ParsePrintedItems(items: seq<Json>, t: string)
    requires CanonicalItems(items)
    ensures items != [] ==> ParseItems(PrintItems(items) + "]" + t) == Some(Parsed(items, t))
    decreases items
  {
    hide ParseValue, Print, Canonical;
    if |items| > 0 {
      var rest := if |items| == 1 then "]" + t else "," + (PrintItems(items[1..]) + "]" + t);
      assert PrintItems(items) + "]" + t == Print(items[0]) + rest;
      ParsePrinted(items[0], rest);
      assert SkipWhite(rest) == rest;
      if |items| == 1 {
        assert rest[1..] == t;
        assert items == [items[0]];
      } else {
        ParsePrintedItems(items[1..], t);
        ItemsStart(items[1..], t);
        assert rest[1..] == PrintItems(items[1..]) + "]" + t;
        assert items == [items[0]] + items[1..];
      }
    }
  }

  lemma {:induction false} ParsePrintedField(f: Field, t: string)
    requires CanonicalField(f) && EndsNumber(t)
    ensures ParseField(PrintField(f) + t) == Some(Parsed(f, t))
    decreases f
  {
    hide ParseValue, Print, Canonical, Escape, ParseString;
    var after := ":" + (Print(f.value) + t);
    var text := PrintField(f) + t;
    assert text[1..] == Escape(f.key) + "\"" + after;
    ParseEscaped(f.key, after);
    PrintStarts(f.value);
    ParsePrinted(f.value, t);
    assert SkipWhite(after) == after && after[1..] == Print(f.value) + t;
    assert SkipWhite(Print(f.value) + t) == Print(f.value) + t;
  }

  lemma {:induction false} ParsePrintedFields(fields: seq<Field>, t: string)
    requires CanonicalFields(fields)
    ensures fields != [] ==> ParseFields(PrintFields(fields) + "}" + t) == Some(Parsed(fields, t))
    decreases fields
  {
    hide ParseField, PrintField, CanonicalField;
    if |fields| > 0 {
      var rest := if |fields| == 1 then "}" + t else "," + (PrintFields(fields[1..]) + "}" + t);
      assert PrintFields(fields) + "}" + t == PrintField(fields[0]) + rest;
      ParsePrintedField(fields[0], rest);
      assert SkipWhite(rest) == rest;
      if |fields| == 1 {
        assert rest[1..] == t;
        assert fields == [fields[0]];
      } else {
        ParsePrintedFields(fields[1..], t);
        FieldsStart(fields[1..], t);
        assert rest[1..] == PrintFields(fields[1..]) + "}" + t;
        assert fields == [fields[0]] + fields[1..];
      }
    }
  }

  lemma {:induction false} PutLast(fields: seq<Field>, f: Field)
    requires forall i :: 0 <= i < |fields| ==> TextLess(fields[i].key, f.key)
    ensures Put(fields, f) == fields + [f]
  {
    if |fields| > 0 {
      TextTotal(fields[0].key, f.key);
      PutLast(fields[1..], f);
      assert fields + [f] == [fields[0]] + (fields[1..] + [f]);
    }
  }

  lemma {:induction false} PutAllSorted(fields: seq<Field>, more: seq<Field>)
    requires SortedKeys(fields + more)
    ensures PutAll(fields, more) == fields + more
    decreases |more|
  {
    if |more| == 0 {
      assert fields + more == fields;
    } else {
      var all := fields + more;
      forall i | 0 <= i < |fields| ensures TextLess(fields[i].key, more[0].key) {
        assert fields[i] == all[i] && more[0] == all[|fields|];
      }
      PutLast(fields, more[0]);
      assert fields + [more[0]] + more[1..] == all;
      PutAllSorted(fields + [more[0]], more[1..]);
    }
  }

  /** Loading a dumped canonical value gives the value back. */
  lemma {:induction false} LoadDumped(v: Json)
    requires Canonical(v)
    ensures Loads(Print(v)) == Some(v)
  {
    hide ParseValue, Print, Canonical;
    PrintStarts(v);
    ParsePrinted(v, "");
    assert Print(v) + "" == Print(v);
  }
}
