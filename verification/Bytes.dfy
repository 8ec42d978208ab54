/**
 * UTF-8 text, the encodings JSON bytes may have, and base64url (section 5 of RFC 4648, without
 * padding), as the program's tokens use them.
 */
module Bytes {
  import opened Results

  type Byte = x: int | 0 <= x < 256

  // ---------------------------------------------------------------- UTF-8

  function Tail(n: nat): (r: Byte)
    ensures IsTail(r)
  {
    0x80 + n % 64
  }

  predicate IsTail(b: Byte) { 0x80 <= b < 0xC0 }

  function EncodeChar(c: char): (r: seq<Byte>)
    ensures 1 <= |r| <= 4
  {
    var n := c as int;
    if n < 0x80 then [n]
    else if n < 0x800 then [0xC0 + n / 64, Tail(n)]
    else if n < 0x10000 then [0xE0 + n / 4096, Tail(n / 64), Tail(n)]
    else [0xF0 + n / 262144, Tail(n / 4096), Tail(n / 64), Tail(n)]
  }

  function EncodeText(s: string): seq<Byte> {
    if |s| == 0 then [] else EncodeChar(s[0]) + EncodeText(s[1..])
  }

  /** Six more bits from a continuation byte. */
  function Join(high: int, tail: int): int { high * 64 + (tail - 0x80) }

  datatype Decoded = Decoded(c: char, size: nat)

  /** The first character of well-formed UTF-8: no overlong form, no surrogate. */
  function DecodeChar(b: seq<Byte>): (r: Option<Decoded>)
    ensures r.Some? ==> 0 < r.value.size <= |b|
  {
    if |b| == 0 then None
    else if b[0] < 0x80 then Some(Decoded(b[0] as char, 1))
    else if 0xC2 <= b[0] < 0xE0 && |b| >= 2 && IsTail(b[1]) then
      var n := Join(b[0] - 0xC0, b[1]);
      Some(Decoded(n as char, 2))
    else if 0xE0 <= b[0] < 0xF0 && |b| >= 3 && IsTail(b[1]) && IsTail(b[2]) then
      var n := Join(Join(b[0] - 0xE0, b[1]), b[2]);
      if n < 0x800 || 0xD800 <= n < 0xE000 then None else Some(Decoded(n as char, 3))
    else if 0xF0 <= b[0] < 0xF5 && |b| >= 4 && IsTail(b[1]) && IsTail(b[2]) && IsTail(b[3]) then
      var n := Join(Join(Join(b[0] - 0xF0, b[1]), b[2]), b[3]);
      if n < 0x10000 || n >= 0x110000 then None else Some(Decoded(n as char, 4))
    else None
  }

  function DecodeText(b: seq<Byte>): Option<string>
    decreases |b|
  {
    if |b| == 0 then Some("")
    else match DecodeChar(b)
      case None => None
      case Some(Decoded(c, size)) =>
        match DecodeText(b[size..])
        case None => None
        case Some(s) => Some([c] + s)
  }

  lemma {:induction false} JoinTail(n: nat)
    ensures Join(n / 64, Tail(n)) == n
  {
  }

  lemma {:induction false} DivTwice(n: nat)
    ensures n / 64 / 64 == n / 4096 && n / 4096 / 64 == n / 262144
  {
  }

  lemma {:induction false} DecodeTwo(c: char, lead: Byte, x: Byte, rest: seq<Byte>)
    requires 0xC2 <= lead < 0xE0 && IsTail(x) && Join(lead - 0xC0, x) == c as int
    ensures DecodeChar([lead, x] + rest) == Some(Decoded(c, 2))
  {
    hide Join, Tail;
    var b := [lead, x] + rest;
    assert b[0] == lead && b[1] == x;
  }

  lemma {:induction false} DecodeThree(c: char, lead: Byte, x: Byte, y: Byte, rest: seq<Byte>)
    requires 0xE0 <= lead < 0xF0 && IsTail(x) && IsTail(y) && c as int >= 0x800
    requires Join(Join(lead - 0xE0, x), y) == c as int
    ensures DecodeChar([lead, x, y] + rest) == Some(Decoded(c, 3))
  {
    hide Join, Tail;
    var b := [lead, x, y] + rest;
    assert b[0] == lead && b[1] == x && b[2] == y;
  }

  lemma {:induction false} DecodeFour(c: char, lead: Byte, x: Byte, y: Byte, z: Byte, rest: seq<Byte>)
    requires 0xF0 <= lead < 0xF5 && IsTail(x) && IsTail(y) && IsTail(z) && c as int >= 0x10000
    requires Join(Join(Join(lead - 0xF0, x), y), z) == c as int
    ensures DecodeChar([lead, x, y, z] + rest) == Some(Decoded(c, 4))
  {
    hide Join, Tail;
    var b := [lead, x, y, z] + rest;
    assert b[0] == lead && b[1] == x && b[2] == y && b[3] == z;
  }

  lemma {:induction false} DecodeEncodedChar(c: char, rest: seq<Byte>)
    ensures DecodeChar(EncodeChar(c) + rest) == Some(Decoded(c, |EncodeChar(c)|))
  {
    hide Join, Tail, DecodeChar;
    var n := c as int;
    Leads(n);
    JoinTail(n);
    JoinTail(n / 64);
    JoinTail(n / 4096);
    DivTwice(n);
    if n < 0x80 {
      DecodeOne(c, rest);
    } else if n < 0x800 {
      DecodeTwo(c, 0xC0 + n / 64, Tail(n), rest);
    } else if n < 0x10000 {
      DecodeThree(c, 0xE0 + n / 4096, Tail(n / 64), Tail(n), rest);
    } else {
      DecodeFour(c, 0xF0 + n / 262144, Tail(n / 4096), Tail(n / 64), Tail(n), rest);
    }
  }

  lemma {:induction false} DecodeOne(c: char, rest: seq<Byte>)
    requires c as int < 0x80
    ensures DecodeChar([c as int] + rest) == Some(Decoded(c, 1))
  {
    hide Join, Tail;
  }

  lemma {:induction false} Leads(n: nat)
    requires n < 0x110000
    ensures 0x80 <= n < 0x800 ==> 2 <= n / 64 < 0x20
    ensures 0x800 <= n < 0x10000 ==> 0 <= n / 4096 < 0x10
    ensures 0x10000 <= n ==> 0 <= n / 262144 < 5
  {
  }

  lemma {:induction false} DecodeEncodedText(s: string)
    ensures DecodeText(EncodeText(s)) == Some(s)
  {
    hide DecodeChar, EncodeChar;
    if |s| > 0 {
      var e, rest := EncodeChar(s[0]), EncodeText(s[1..]);
      DecodeEncodedChar(s[0], rest);
      assert (e + rest)[|e|..] == rest;
      DecodeEncodedText(s[1..]);
      assert s == [s[0]] + s[1..];
    }
  }

  lemma {:induction false} EncodeTextConcat(a: string, b: string)
    ensures EncodeText(a + b) == EncodeText(a) + EncodeText(b)
  {
    hide EncodeChar;
    if |a| == 0 {
      assert a + b == b;
    } else {
      EncodeTextConcat(a[1..], b);
      assert (a + b)[1..] == a[1..] + b;
      assert EncodeText(a + b) == EncodeChar(a[0]) + (EncodeText(a[1..]) + EncodeText(b));
    }
  }

  // ---------------------------------------------------------------- other encodings of JSON bytes

  datatype Encoding = Utf8(mark: bool) | Utf16(bigEndian: bool, mark: bool) | Utf32(bigEndian: bool, mark: bool)

  predicate StartsWithBytes(b: seq<Byte>, start: seq<Byte>) { |b| >= |start| && b[..|start|] == start }

  /** json.detect_encoding: a byte order mark decides, then where the first zero bytes are. */
  function DetectEncoding(b: seq<Byte>): Encoding {
    if StartsWithBytes(b, [0, 0, 0xFE, 0xFF]) then Utf32(true, true)
    else if StartsWithBytes(b, [0xFF, 0xFE, 0, 0]) then Utf32(false, true)
    else if StartsWithBytes(b, [0xFE, 0xFF]) then Utf16(true, true)
    else if StartsWithBytes(b, [0xFF, 0xFE]) then Utf16(false, true)
    else if StartsWithBytes(b, [0xEF, 0xBB, 0xBF]) then Utf8(true)
    else if |b| >= 4 && b[0] == 0 then if b[1] != 0 then Utf16(true, false) else Utf32(true, false)
    else if |b| >= 4 && b[1] == 0 then if b[2] != 0 || b[3] != 0 then Utf16(false, false) else Utf32(false, false)
    else if |b| == 2 && b[0] == 0 then Utf16(true, false)
    else if |b| == 2 && b[1] == 0 then Utf16(false, false)
    else Utf8(false)
  }

  function Unit(bigEndian: bool, x: Byte, y: Byte): nat { if bigEndian then x * 256 + y else y * 256 + x }

  function Prepend(c: char, rest: Option<string>): Option<string> {
    match rest case None => None case Some(s) => Some([c] + s)
  }

  /** Two bytes a unit; a pair of surrogates is one character, a lone one is refused. */
  function DecodeText16(b: seq<Byte>, bigEndian: bool): Option<string>
    decreases |b|
  {
    if |b| == 0 then Some("")
    else if |b| == 1 then None
    else
      var unit := Unit(bigEndian, b[0], b[1]);
      if unit < 0xD800 || unit >= 0xE000 then Prepend(unit as char, DecodeText16(b[2..], bigEndian))
      else if unit >= 0xDC00 || |b| < 4 then None
      else
        var low := Unit(bigEndian, b[2], b[3]);
        if low < 0xDC00 || low >= 0xE000 then None
        else Prepend((0x10000 + (unit - 0xD800) * 0x400 + (low - 0xDC00)) as char, DecodeText16(b[4..], bigEndian))
  }

  function DecodeText32(b: seq<Byte>, bigEndian: bool): Option<string>
    decreases |b|
  {
    if |b| == 0 then Some("")
    else if |b| < 4 then None
    else
      var first, second := Unit(bigEndian, b[0], b[1]), Unit(bigEndian, b[2], b[3]);
      var n := if bigEndian then first * 0x10000 + second else second * 0x10000 + first;
      if n >= 0x110000 || 0xD800 <= n < 0xE000 then None else Prepend(n as char, DecodeText32(b[4..], bigEndian))
  }

  /** The text json.loads reads from bytes. */
  function DecodeJsonBytes(b: seq<Byte>): Option<string> {
    match DetectEncoding(b)
    case Utf8(mark) => DecodeText(if mark && |b| >= 3 then b[3..] else b)
    case Utf16(bigEndian, mark) => DecodeText16(if mark && |b| >= 2 then b[2..] else b, bigEndian)
    case Utf32(bigEndian, mark) => DecodeText32(if mark && |b| >= 4 then b[4..] else b, bigEndian)
  }

  /** The text of an object in UTF-8 is detected as such. */
  lemma {:induction false} DecodeObjectText(s: string)
    requires |s| >= 2 && s[0] == '{' && 0 < s[1] as int < 128
    ensures DecodeJsonBytes(EncodeText(s)) == Some(s)
  {
    DecodeEncodedText(s);
    var b := EncodeText(s);
    var tail := EncodeText(s[1..]);
    assert b == EncodeChar(s[0]) + tail && tail == EncodeChar(s[1]) + EncodeText(s[1..][1..]);
    assert b[0] == 0x7B && b[1] == s[1] as int;
    FirstByteDiffers(b, [0, 0, 0xFE, 0xFF]);
    FirstByteDiffers(b, [0xFF, 0xFE, 0, 0]);
    FirstByteDiffers(b, [0xFE, 0xFF]);
    FirstByteDiffers(b, [0xFF, 0xFE]);
    FirstByteDiffers(b, [0xEF, 0xBB, 0xBF]);
    hide EncodeText, DecodeText, StartsWithBytes;
    assert DetectEncoding(b) == Utf8(false);
  }

  lemma {:induction false} FirstByteDiffers(b: seq<Byte>, start: seq<Byte>)
    requires |b| > 0 && |start| > 0 && b[0] != start[0]
    ensures !StartsWithBytes(b, start)
  {
    if |b| >= |start| { assert b[..|start|][0] == b[0]; }
  }

  // ---------------------------------------------------------------- base64url

  function Digit(v: int): char
    requires 0 <= v < 64
  {
    if v < 26 then 'A' + v as char
    else if v < 52 then 'a' + (v - 26) as char
    else if v < 62 then '0' + (v - 52) as char
    else if v == 62 then '-'
    else '_'
  }

  function DigitValue(c: char): (r: Option<int>)
    ensures r.Some? ==> 0 <= r.value < 64
  {
    if 'A' <= c <= 'Z' then Some(c as int - 'A' as int)
    else if 'a' <= c <= 'z' then Some(c as int - 'a' as int + 26)
    else if '0' <= c <= '9' then Some(c as int - '0' as int + 52)
    else if c == '-' then Some(62)
    else if c == '_' then Some(63)
    else None
  }

  lemma {:induction false} DigitRoundTrip(v: int)
    requires 0 <= v < 64
    ensures DigitValue(Digit(v)) == Some(v)
  {
  }

  function Six0(b0: Byte): (v: int) ensures 0 <= v < 64 { b0 / 4 }

  function Six1(b0: Byte, b1: Byte): (v: int) ensures 0 <= v < 64 { b0 % 4 * 16 + b1 / 16 }

  function Six2(b1: Byte, b2: Byte): (v: int) ensures 0 <= v < 64 { b1 % 16 * 4 + b2 / 64 }

  function Six3(b2: Byte): (v: int) ensures 0 <= v < 64 { b2 % 64 }

  /** Three bytes become four digits; a tail of one or two bytes becomes two or three. */
  function Encode64(b: seq<Byte>): string
    decreases |b|
  {
    if |b| == 0 then ""
    else if |b| == 1 then [Digit(Six0(b[0])), Digit(Six1(b[0], 0))]
    else if |b| == 2 then [Digit(Six0(b[0])), Digit(Six1(b[0], b[1])), Digit(Six2(b[1], 0))]
    else [Digit(Six0(b[0])), Digit(Six1(b[0], b[1])), Digit(Six2(b[1], b[2])), Digit(Six3(b[2]))] + Encode64(b[3..])
  }

  function Byte0(v0: int, v1: int): Byte requires 0 <= v0 < 64 && 0 <= v1 < 64 { v0 * 4 + v1 / 16 }

  function Byte1(v1: int, v2: int): Byte requires 0 <= v1 < 64 && 0 <= v2 < 64 { v1 % 16 * 16 + v2 / 4 }

  function Byte2(v2: int, v3: int): Byte requires 0 <= v2 < 64 && 0 <= v3 < 64 { v2 % 4 * 64 + v3 }

  /** Unused bits of the last digit are ignored; a single digit left over is refused. */
  function Decode64(t: string): Option<seq<Byte>>
    decreases |t|
  {
    if |t| == 0 then Some([])
    else if |t| == 1 then None
    else match (DigitValue(t[0]), DigitValue(t[1]))
      case (Some(v0), Some(v1)) =>
        if |t| == 2 then Some([Byte0(v0, v1)])
        else (match DigitValue(t[2])
          case None => None
          case Some(v2) =>
            if |t| == 3 then Some([Byte0(v0, v1), Byte1(v1, v2)])
            else (match (DigitValue(t[3]), Decode64(t[4..]))
              case (Some(v3), Some(rest)) => Some([Byte0(v0, v1), Byte1(v1, v2), Byte2(v2, v3)] + rest)
              case _ => None))
      case _ => None
  }

  lemma {:induction false} SixesToBytes(b0: Byte, b1: Byte, b2: Byte)
    ensures Byte0(Six0(b0), Six1(b0, b1)) == b0
    ensures Byte1(Six1(b0, b1), Six2(b1, b2)) == b1
    ensures Byte2(Six2(b1, b2), Six3(b2)) == b2
  {
  }

  lemma {:induction false} Decode64Encoded(b: seq<Byte>)
    ensures Decode64(Encode64(b)) == Some(b)
    decreases |b|
  {
    hide Digit, DigitValue, Six0, Six1, Six2, Six3, Byte0, Byte1, Byte2;
    forall v | 0 <= v < 64 ensures DigitValue(Digit(v)) == Some(v) { DigitRoundTrip(v); }
    if |b| >= 3 {
      Decode64Encoded(b[3..]);
      SixesToBytes(b[0], b[1], b[2]);
      assert Encode64(b)[4..] == Encode64(b[3..]);
      assert b == [b[0], b[1], b[2]] + b[3..];
    } else if |b| == 2 {
      SixesToBytes(b[0], b[1], 0);
      assert b == [b[0], b[1]];
    } else if |b| == 1 {
      SixesToBytes(b[0], 0, 0);
      assert b == [b[0]];
    }
  }

  /** Only digits of the alphabet appear, and four stand for each started group of three bytes. */
  lemma {:induction false} Encode64Shape(b: seq<Byte>)
    ensures |Encode64(b)| == |b| / 3 * 4 + (if |b| % 3 == 0 then 0 else |b| % 3 + 1)
    ensures forall i :: 0 <= i < |Encode64(b)| ==> DigitValue(Encode64(b)[i]).Some?
    decreases |b|
  {
    hide Digit, DigitValue, Six0, Six1, Six2, Six3;
    forall v | 0 <= v < 64 ensures DigitValue(Digit(v)) == Some(v) { DigitRoundTrip(v); }
    if |b| >= 3 {
      Encode64Shape(b[3..]);
    }
  }
}
