/**
 * UTF-8 sizes of compact JSON dumps, taken apart along lists, objects and texts.
 */
module JsonSizes {
  import opened Texts
  import opened Json
  import opened Bytes

  function TextSize(s: string): nat { |EncodeText(s)| }

  /** The UTF-8 length of the compact dump. */
  function Size(v: Json): nat { TextSize(Print(v)) }

  function ListSize(items: seq<Json>): nat { TextSize(PrintItems(items)) }

  function FieldsSize(fields: seq<Field>): nat { TextSize(PrintFields(fields)) }

  function FieldSize(f: Field): nat { TextSize(PrintField(f)) }

  lemma {:induction false} TextSizeConcat(a: string, b: string)
    ensures TextSize(a + b) == TextSize(a) + TextSize(b)
  {
    EncodeTextConcat(a, b);
  }

  lemma {:induction false} ItemsCons(x: Json, xs: seq<Json>)
    ensures ListSize([x] + xs) == Size(x) + (if xs == [] then 0 else 1 + ListSize(xs))
  {
    var all := [x] + xs;
    assert all[1..] == xs && all[0] == x;
    if xs != [] {
      TextSizeConcat(Print(x) + ",", PrintItems(xs));
      TextSizeConcat(Print(x), ",");
      Comma();
    }
  }

  lemma {:induction false} Comma()
    ensures TextSize(",") == 1 && TextSize(":") == 1 && TextSize("[") == 1 && TextSize("]") == 1 && TextSize("{") == 1
    ensures TextSize("}") == 1 && TextSize("") == 0
  {
    assert ","[1..] == "" && ":"[1..] == "" && "["[1..] == "" && "]"[1..] == "" && "{"[1..] == "" && "}"[1..] == "";
  }

  lemma {:induction false} ItemsSnoc(xs: seq<Json>, x: Json)
    ensures ListSize(xs + [x]) == Size(x) + (if xs == [] then 0 else 1 + ListSize(xs))
  {
    hide ListSize, Size;
    if xs == [] {
      assert xs + [x] == [x] + [];
      ItemsCons(x, []);
    } else {
      var rest := xs[1..];
      assert xs + [x] == [xs[0]] + (rest + [x]) && xs == [xs[0]] + rest;
      ItemsSnoc(rest, x);
      ItemsCons(xs[0], rest + [x]);
      ItemsCons(xs[0], rest);
    }
  }

  lemma {:induction false} FieldsCons(f: Field, fs: seq<Field>)
    ensures FieldsSize([f] + fs) == FieldSize(f) + (if fs == [] then 0 else 1 + FieldsSize(fs))
  {
    var all := [f] + fs;
    assert all[1..] == fs && all[0] == f;
    if fs != [] {
      TextSizeConcat(PrintField(f) + ",", PrintFields(fs));
      TextSizeConcat(PrintField(f), ",");
      Comma();
    }
  }

  lemma {:induction false} FieldsSnoc(fs: seq<Field>, f: Field)
    ensures FieldsSize(fs + [f]) == FieldSize(f) + (if fs == [] then 0 else 1 + FieldsSize(fs))
  {
    hide FieldsSize, FieldSize;
    if fs == [] {
      assert fs + [f] == [f] + [];
      FieldsCons(f, []);
    } else {
      var rest := fs[1..];
      assert fs + [f] == [fs[0]] + (rest + [f]) && fs == [fs[0]] + rest;
      FieldsSnoc(rest, f);
      FieldsCons(fs[0], rest + [f]);
      FieldsCons(fs[0], rest);
    }
  }

  lemma {:induction false} ObjectSize(fields: seq<Field>)
    ensures Size(Obj(fields)) == 2 + FieldsSize(fields)
  {
    hide PrintFields, EncodeText;
    Comma();
    TextSizeConcat("{" + PrintFields(fields), "}");
    TextSizeConcat("{", PrintFields(fields));
  }

  lemma {:induction false} ArraySize(items: seq<Json>)
    ensures Size(Arr(items)) == 2 + ListSize(items)
  {
    hide PrintItems, EncodeText;
    Comma();
    TextSizeConcat("[" + PrintItems(items), "]");
    TextSizeConcat("[", PrintItems(items));
  }

  lemma {:induction false} FieldSizeParts(f: Field)
    ensures FieldSize(f) == Size(Str(f.key)) + 1 + Size(f.value)
  {
    hide PrintString, EncodeText;
    Comma();
    TextSizeConcat(PrintString(f.key) + ":", Print(f.value));
    TextSizeConcat(PrintString(f.key), ":");
  }

  lemma {:induction false} BoolSize(b: bool)
    ensures Size(Bool(b)) == if b then 4 else 5
  {
    PlainSize(if b then "true" else "false");
  }

  /** Text of printable ASCII characters that are not escaped. */
  predicate Plain(s: string) { forall i :: 0 <= i < |s| ==> 32 <= s[i] as int < 127 && s[i] != '"' && s[i] != '\\' }

  lemma {:induction false} PlainSize(s: string)
    requires Plain(s)
    ensures TextSize(s) == |s| && Escape(s) == s
  {
    if |s| > 0 {
      PlainSize(s[1..]);
      assert s == [s[0]] + s[1..];
    }
  }

  lemma {:induction false} QuotedSize(s: string)
    ensures Size(Str(s)) == 2 + TextSize(Escape(s))
  {
    hide EncodeText, Escape;
    TextSizeConcat("\"" + Escape(s), "\"");
    TextSizeConcat("\"", Escape(s));
    QuoteSize();
  }

  lemma {:induction false} QuoteSize()
    ensures TextSize("\"") == 1
  {
    assert "\""[1..] == "";
  }

  lemma {:induction false} NoFields()
    ensures FieldsSize([]) == 0 && ListSize([]) == 0
  {
    Comma();
  }

  lemma {:induction false} FieldSizePositive(f: Field)
    ensures FieldSize(f) > 0
  {
    hide Size, FieldSize;
    FieldSizeParts(f);
  }

  lemma {:induction false} PlainText(s: string)
    requires Plain(s)
    ensures Size(Str(s)) == |s| + 2
  {
    hide Size, EncodeText;
    PlainSize(s);
    QuotedSize(s);
  }

  lemma {:induction false} DigitCount(n: nat, k: nat)
    requires k > 0 && n < Pow10(k)
    ensures |NatText(n)| <= k
  {
    if n >= 10 {
      assert k > 1;
      DigitCount(n / 10, k - 1);
    }
  }

  lemma {:induction false} CountSize(n: int)
    requires 0 <= n < 1_000_000_000_000_000_000
    ensures Size(Int(n)) <= 18
  {
    assert Pow10(6) == 1_000_000;
    assert Pow10(12) == 1_000_000_000_000;
    assert Pow10(18) == 1_000_000_000_000_000_000;
    DigitCount(n, 18);
    PlainSize(NatText(n));
  }

  lemma {:induction false} SmallInt(n: nat)
    requires n < 10
    ensures Size(Int(n)) == 1
  {
    PlainSize(Print(Int(n)));
  }

  // ---------------------------------------------------------------- upper bounds

  /** An upper bound of the size of a dump, with at most 24 bytes for each character of a text. */
  function Weight(v: Json): nat
    decreases v
  {
    match v
    case Str(s) => 2 + 24 * |s|
    case Arr(items) => 2 + ItemsWeight(items)
    case Obj(fields) => 2 + FieldsWeight(fields)
    case _ => Size(v)
  }

  function ItemsWeight(items: seq<Json>): nat
    decreases items
  {
    if |items| == 0 then 0 else Weight(items[0]) + 1 + ItemsWeight(items[1..])
  }

  function FieldWeight(f: Field): nat
    decreases f
  {
    4 + 24 * |f.key| + Weight(f.value)
  }

  function FieldsWeight(fields: seq<Field>): nat
    decreases fields
  {
    if |fields| == 0 then 0 else FieldWeight(fields[0]) + FieldsWeight(fields[1..])
  }

  lemma {:induction false} TextBound(s: string)
    ensures TextSize(s) <= 4 * |s|
  {
    hide EncodeChar;
    if |s| > 0 { TextBound(s[1..]); }
  }

  lemma {:induction false} EscapeBound(s: string)
    ensures |Escape(s)| <= 6 * |s|
  {
    if |s| > 0 { EscapeBound(s[1..]); }
  }

  lemma {:induction false} StringBound(s: string)
    ensures Size(Str(s)) <= 2 + 24 * |s|
  {
    hide Escape, EncodeText, Size;
    QuotedSize(s);
    TextBound(Escape(s));
    EscapeBound(s);
  }

  lemma {:induction false} SizeAtMostWeight(v: Json)
    ensures Size(v) <= Weight(v)
    decreases v
  {
    hide Size;
    match v
    case Str(s) => StringBound(s);
    case Arr(items) =>
      ArraySize(items);
      ListAtMostWeight(items);
    case Obj(fields) =>
      ObjectSize(fields);
      FieldsAtMostWeight(fields);
    case _ =>
  }

  lemma {:induction false} ListAtMostWeight(items: seq<Json>)
    ensures ListSize(items) <= ItemsWeight(items)
    decreases items
  {
    hide Size, ListSize;
    if |items| > 0 {
      SizeAtMostWeight(items[0]);
      ListAtMostWeight(items[1..]);
      assert items == [items[0]] + items[1..];
      ItemsCons(items[0], items[1..]);
    } else {
      NoFields();
    }
  }

  lemma {:induction false} FieldAtMostWeight(f: Field)
    ensures FieldSize(f) + 1 <= FieldWeight(f)
    decreases f
  {
    hide Size, FieldSize;
    FieldSizeParts(f);
    StringBound(f.key);
    SizeAtMostWeight(f.value);
  }

  lemma {:induction false} FieldsAtMostWeight(fields: seq<Field>)
    ensures FieldsSize(fields) <= FieldsWeight(fields)
    decreases fields
  {
    hide FieldsSize, FieldSize, FieldWeight;
    if |fields| > 0 {
      FieldAtMostWeight(fields[0]);
      FieldsAtMostWeight(fields[1..]);
      assert fields == [fields[0]] + fields[1..];
      FieldsCons(fields[0], fields[1..]);
    } else {
      NoFields();
    }
  }

  lemma {:induction false} FieldsWeightBound(fields: seq<Field>, bound: nat)
    requires forall i :: 0 <= i < |fields| ==> FieldWeight(fields[i]) <= bound
    ensures FieldsWeight(fields) <= |fields| * bound
  {
    hide FieldWeight;
    if |fields| > 0 { FieldsWeightBound(fields[1..], bound); }
  }

  lemma {:induction false} LiteralWeights()
    ensures Weight(Null) == 4 && Weight(Bool(true)) == 4 && Weight(Bool(false)) == 5
    ensures forall n: nat :: n < 10 ==> Weight(Int(n)) == 1
  {
    hide Size;
    BoolSize(true);
    BoolSize(false);
    NullSize();
    forall n: nat | n < 10 ensures Weight(Int(n)) == 1 { SmallInt(n); }
  }

  lemma {:induction false} NullSize()
    ensures Size(Null) == 4
  {
    PlainSize("null");
  }
}
