/**
 * Exact decimal canonicalisation (backend/app/domain/decimal_values.py).
 *
 * Numbers stay strings. `Value` gives the exact number a numeral denotes, and the
 * theorems relate `Normalize` to it: the value is kept, two accepted inputs share a
 * canonical string exactly when they denote the same number, and renormalising fails
 * only for inputs that already use every permitted digit behind a leading dot.
 */
module Decimals {
  import opened Results
  import opened Texts

  const MAX_DECIMAL_INPUT_LENGTH := 256
  const MAX_DECIMAL_DIGITS := 128

  datatype DecimalError = InvalidDecimal

  // ---------------------------------------------------------------- text

  /** The characters `str.strip` removes. */
  predicate IsSpace(c: char) {
    || '\t' <= c <= '\r'
    || '\U{1C}' <= c <= ' '
    || c == '\U{85}' || c == '\U{A0}' || c == '\U{1680}'
    || '\U{2000}' <= c <= '\U{200A}'
    || c == '\U{2028}' || c == '\U{2029}' || c == '\U{202F}' || c == '\U{205F}' || c == '\U{3000}'
  }

  function StripLeft(s: string): string {
    if |s| > 0 && IsSpace(s[0]) then StripLeft(s[1..]) else s
  }

  function StripRight(s: string): string {
    if |s| > 0 && IsSpace(s[|s| - 1]) then StripRight(s[..|s| - 1]) else s
  }

  function Strip(s: string): string {
    StripRight(StripLeft(s))
  }

  lemma {:induction false} StripRightFixed(s: string)
    ensures forall c :: c in StripRight(s) ==> c in s
    ensures |StripRight(s)| > 0 ==> |s| > 0 && StripRight(s)[0] == s[0]
    ensures |StripRight(s)| > 0 ==> !IsSpace(StripRight(s)[|StripRight(s)| - 1])
  {
    if |s| > 0 && IsSpace(s[|s| - 1]) { StripRightFixed(s[..|s| - 1]); }
  }

  lemma {:induction false} StripLeftFixed(s: string)
    ensures |StripLeft(s)| > 0 ==> !IsSpace(StripLeft(s)[0])
  {
    if |s| > 0 && IsSpace(s[0]) { StripLeftFixed(s[1..]); }
  }

  /** Stripped text has no outer space, so stripping it again changes nothing. */
  lemma {:induction false} StripIdempotent(s: string)
    ensures Strip(Strip(s)) == Strip(s)
  {
    StripLeftFixed(s);
    StripRightFixed(StripLeft(s));
  }

  // ---------------------------------------------------------------- numerals

  predicate AllDigits(s: string) { forall i :: 0 <= i < |s| ==> IsDigit(s[i]) }

  function DigitCount(s: string): nat {
    if |s| == 0 then 0 else (if IsDigit(s[0]) then 1 else 0) + DigitCount(s[1..])
  }

  /** A numeral split at its first dot: sign, integer digits, dot present, fraction digits. */
  datatype Parts = Parts(negative: bool, integer: string, dot: bool, fraction: string)

  function FirstDot(s: string): (n: nat)
    ensures n <= |s|
    ensures n < |s| ==> s[n] == '.'
    ensures forall i :: 0 <= i < n ==> s[i] != '.'
  {
    if |s| == 0 || s[0] == '.' then 0 else 1 + FirstDot(s[1..])
  }

  function Split(text: string): Parts {
    var negative := |text| > 0 && text[0] == '-';
    var unsigned := if negative then text[1..] else text;
    var n := FirstDot(unsigned);
    if n == |unsigned| then Parts(negative, unsigned, false, "")
    else Parts(negative, unsigned[..n], true, unsigned[n + 1..])
  }

  /** The accepted shape: optional sign, then digits with an optional fraction, or a dot and digits. */
  predicate Numeral(p: Parts) {
    && AllDigits(p.integer)
    && AllDigits(p.fraction)
    && (p.integer != "" || p.fraction != "")
    && (!p.dot ==> p.fraction == "")
  }

  predicate IsNumeral(text: string) { Numeral(Split(text)) }

  function TrimLeadingZeros(s: string): string {
    if |s| > 0 && s[0] == '0' then TrimLeadingZeros(s[1..]) else s
  }

  function TrimTrailingZeros(s: string): string {
    if |s| > 0 && s[|s| - 1] == '0' then TrimTrailingZeros(s[..|s| - 1]) else s
  }

  function OrZero(s: string): string { if s == "" then "0" else s }

  function Accepted(text: string): bool {
    && 0 < |text| <= MAX_DECIMAL_INPUT_LENGTH
    && IsNumeral(text)
    && DigitCount(text) <= MAX_DECIMAL_DIGITS
  }

  function Join(p: Parts): string {
    var unsigned := if p.fraction == "" then p.integer else p.integer + "." + p.fraction;
    if unsigned == "0" then "0" else if p.negative then "-" + unsigned else unsigned
  }

  /** normalize_decimal */
  function Normalize(raw: string): Result<string, DecimalError> {
    var text := Strip(raw);
    if !Accepted(text) then Err(InvalidDecimal)
    else
      var p := Split(text);
      var integer := OrZero(TrimLeadingZeros(OrZero(p.integer)));
      var fraction := if p.dot then TrimTrailingZeros(p.fraction) else "";
      Ok(Join(Parts(p.negative, integer, p.dot, fraction)))
  }

  /** normalize_optional_decimal */
  function NormalizeOptional(raw: Option<string>): Result<Option<string>, DecimalError> {
    if raw.None? || Strip(raw.value) == "" then Ok(None)
    else match Normalize(raw.value) case Ok(x) => Ok(Some(x)) case Err(e) => Err(e)
  }

  // ---------------------------------------------------------------- values

  function Digit(c: char): int { c as int - '0' as int }

  /** The natural number written by a digit string. */
  function DigitsValue(s: string): int {
    if |s| == 0 then 0 else 10 * DigitsValue(s[..|s| - 1]) + Digit(s[|s| - 1])
  }

  function Signed(negative: bool, n: int): int { if negative then -n else n }

  /** The exact number a split numeral denotes. */
  function PartsValue(p: Parts): real {
    Signed(p.negative, DigitsValue(p.integer + p.fraction)) as real / Pow10(|p.fraction|) as real
  }

  /** The exact number a numeral denotes. */
  function Value(text: string): real { PartsValue(Split(text)) }

  // ---------------------------------------------------------------- digit strings

  lemma {:induction false} DigitsValueConcat(a: string, b: string)
    ensures DigitsValue(a + b) == DigitsValue(a) * Pow10(|b|) + DigitsValue(b)
  {
    if |b| == 0 {
      assert a + b == a;
    } else {
      var c := b[..|b| - 1];
      assert (a + b)[..|a + b| - 1] == a + c;
      DigitsValueConcat(a, c);
      assert DigitsValue(a) * Pow10(|b|) == 10 * (DigitsValue(a) * Pow10(|c|));
    }
  }

  lemma {:induction false} DigitsValueBound(s: string)
    requires AllDigits(s)
    ensures 0 <= DigitsValue(s) < Pow10(|s|)
  {
    if |s| > 0 { DigitsValueBound(s[..|s| - 1]); }
  }

  lemma {:induction false} SameLengthDigits(a: string, b: string)
    requires AllDigits(a) && AllDigits(b) && |a| == |b| && DigitsValue(a) == DigitsValue(b)
    ensures a == b
  {
    if |a| > 0 {
      var n := |a| - 1;
      assert DigitsValue(a) == 10 * DigitsValue(a[..n]) + Digit(a[n]);
      assert DigitsValue(b) == 10 * DigitsValue(b[..n]) + Digit(b[n]);
      assert DigitsValue(a[..n]) == DigitsValue(b[..n]) && a[n] == b[n];
      SameLengthDigits(a[..n], b[..n]);
      assert a == a[..n] + [a[n]] && b == b[..n] + [b[n]];
    }
  }

  predicate NoLeadingZero(s: string) { s == "0" || (s != "" && s[0] != '0') }

  lemma {:induction false} PowMonotone(m: nat, n: nat)
    ensures m <= n ==> Pow10(m) <= Pow10(n)
  {
    if m < n { PowMonotone(m, n - 1); }
  }

  lemma {:induction false} OneDigit(c: char)
    ensures DigitsValue([c]) == Digit(c)
  {
    assert [c][..0] == "";
  }

  lemma {:induction false} LeadingDigitBound(s: string)
    requires AllDigits(s) && |s| > 0 && s[0] != '0'
    ensures DigitsValue(s) >= Pow10(|s| - 1)
  {
    hide DigitsValue, Pow10;
    assert s == [s[0]] + s[1..];
    DigitsValueConcat([s[0]], s[1..]);
    DigitsValueBound(s[1..]);
    OneDigit(s[0]);
    MulStrict(0, Digit(s[0]), Pow10(|s| - 1));
  }

  lemma {:induction false} CanonicalIntegers(a: string, b: string)
    requires AllDigits(a) && AllDigits(b) && NoLeadingZero(a) && NoLeadingZero(b)
    requires DigitsValue(a) == DigitsValue(b)
    ensures a == b
  {
    assert DigitsValue("0") == 0 by { assert "0"[..0] == ""; }
    DigitsValueBound(a);
    DigitsValueBound(b);
    if a[0] != '0' { LeadingDigitBound(a); }
    if b[0] != '0' { LeadingDigitBound(b); }
    PowMonotone(|a|, |b| - 1);
    PowMonotone(|b|, |a| - 1);
    SameLengthDigits(a, b);
  }

  lemma {:induction false} TrimLeadingValue(s: string)
    requires AllDigits(s)
    ensures AllDigits(TrimLeadingZeros(s))
    ensures DigitsValue(TrimLeadingZeros(s)) == DigitsValue(s)
    ensures TrimLeadingZeros(s) == "" || TrimLeadingZeros(s)[0] != '0'
    ensures |TrimLeadingZeros(s)| <= |s|
  {
    if |s| > 0 && s[0] == '0' {
      TrimLeadingValue(s[1..]);
      assert s == s[..1] + s[1..];
      DigitsValueConcat(s[..1], s[1..]);
      assert DigitsValue(s[..1]) == 0 by { assert s[..1][..0] == ""; }
    }
  }

  /** Dropping trailing zeros of a fraction divides numerator and denominator alike. */
  lemma {:induction false} TrimTrailingValue(i: string, f: string)
    requires AllDigits(f)
    ensures var g := TrimTrailingZeros(f);
      && AllDigits(g) && |g| <= |f|
      && (g == "" || g[|g| - 1] != '0')
      && DigitsValue(i + f) == DigitsValue(i + g) * Pow10(|f| - |g|)
  {
    if |f| > 0 && f[|f| - 1] == '0' {
      var h := f[..|f| - 1];
      TrimTrailingValue(i, h);
      assert (i + f)[..|i + f| - 1] == i + h;
      var g := TrimTrailingZeros(f);
      assert DigitsValue(i + f) == 10 * DigitsValue(i + h);
      assert Pow10(|f| - |g|) == 10 * Pow10(|h| - |g|);
      TimesTen(DigitsValue(i + g), Pow10(|h| - |g|));
    }
  }

  lemma {:induction false} TimesTen(a: int, p: int)
    ensures a * (10 * p) == 10 * (a * p)
  {
  }

  lemma {:induction false} PowAdd(m: nat, n: nat)
    ensures Pow10(m + n) == Pow10(m) * Pow10(n)
  {
    if m > 0 { PowAdd(m - 1, n); }
  }

  // ---------------------------------------------------------------- canonical strings

  /** The shape of every result of `Normalize`. */
  predicate CanonicalParts(p: Parts) {
    && AllDigits(p.integer) && AllDigits(p.fraction)
    && NoLeadingZero(p.integer)
    && (p.fraction == "" || p.fraction[|p.fraction| - 1] != '0')
    && (p.dot <==> p.fraction != "")
    && (p.negative ==> p.integer != "0" || p.fraction != "")
  }

  predicate Canonical(text: string) {
    CanonicalParts(Split(text)) && Join(Split(text)) == text
  }

  lemma {:induction false} FirstDotAfter(prefix: string, rest: string)
    requires forall i :: 0 <= i < |prefix| ==> prefix[i] != '.'
    ensures FirstDot(prefix + "." + rest) == |prefix|
    ensures FirstDot(prefix) == |prefix|
  {
    var s := prefix + "." + rest;
    if |prefix| > 0 {
      FirstDotAfter(prefix[1..], rest);
      assert s[1..] == prefix[1..] + "." + rest;
    }
  }

  lemma {:induction false} SplitJoin(p: Parts)
    requires CanonicalParts(p)
    ensures Split(Join(p)) == p
  {
    var unsigned := if p.fraction == "" then p.integer else p.integer + "." + p.fraction;
    assert unsigned[0] != '-';
    var text := Join(p);
    assert (if p.negative then text[1..] else text) == unsigned;
    FirstDotAfter(p.integer, p.fraction);
    if p.fraction != "" {
      assert unsigned[..|p.integer|] == p.integer && unsigned[|p.integer| + 1..] == p.fraction;
    }
  }

  lemma {:induction false} RatioCancel(a: int, k: int, p: int)
    requires k >= 1 && p >= 1
    ensures (a * k) as real / (p * k) as real == a as real / p as real
  {
    var ar, kr, pr := a as real, k as real, p as real;
    assert (a * k) as real == ar * kr && (p * k) as real == pr * kr;
    var q := ar / pr;
    assert q * pr == ar;
    assert q * (pr * kr) == ar * kr by { assert q * (pr * kr) == (q * pr) * kr; }
  }

  lemma {:induction false} RatioEqual(a: int, p: int, b: int, q: int)
    requires p >= 1 && q >= 1 && a as real / p as real == b as real / q as real
    ensures a * q == b * p
  {
    var ar, pr, br, qr := a as real, p as real, b as real, q as real;
    var v := ar / pr;
    assert v * pr == ar && v * qr == br;
    assert ar * qr == v * pr * qr == br * pr;
    assert (a * q) as real == ar * qr && (b * p) as real == br * pr;
  }

  /** The parts `Normalize` joins. */
  function CanonicalForm(p: Parts): Parts {
    var integer := OrZero(TrimLeadingZeros(OrZero(p.integer)));
    var fraction := if p.dot then TrimTrailingZeros(p.fraction) else "";
    var zero := integer == "0" && fraction == "";
    Parts(p.negative && !zero, integer, fraction != "", fraction)
  }

  lemma {:induction false} IntegerValue(integer: string)
    requires AllDigits(integer)
    ensures var i := OrZero(TrimLeadingZeros(OrZero(integer)));
      AllDigits(i) && NoLeadingZero(i) && DigitsValue(i) == DigitsValue(integer)
        && |i| <= (if integer == "" then 1 else |integer|)
  {
    assert DigitsValue("0") == 0 by { assert "0"[..0] == ""; }
    TrimLeadingValue(OrZero(integer));
  }

  lemma {:induction false} CanonicalFormDigits(p: Parts)
    requires Numeral(p)
    ensures var c := CanonicalForm(p);
      && CanonicalParts(c)
      && |c.fraction| <= |p.fraction|
      && DigitsValue(p.integer + p.fraction) == DigitsValue(c.integer + c.fraction) * Pow10(|p.fraction| - |c.fraction|)
      && (c.negative != p.negative ==> DigitsValue(c.integer + c.fraction) == 0)
  {
    hide DigitsValue, Pow10;
    var c := CanonicalForm(p);
    var g := c.fraction;
    IntegerValue(p.integer);
    TrimTrailingValue(p.integer, p.fraction);
    assert g == TrimTrailingZeros(p.fraction);
    DigitsValueConcat(p.integer, g);
    DigitsValueConcat(c.integer, g);
    if c.negative != p.negative {
      assert c.integer + g == "0";
      ZeroValue();
    }
  }

  lemma {:induction false} ZeroValue()
    ensures DigitsValue("0") == 0
  {
    assert "0"[..0] == "";
  }

  lemma {:induction false} CanonicalFormValue(p: Parts)
    requires Numeral(p)
    ensures CanonicalParts(CanonicalForm(p))
    ensures PartsValue(CanonicalForm(p)) == PartsValue(p)
  {
    var c := CanonicalForm(p);
    CanonicalFormDigits(p);
    var n, k := DigitsValue(c.integer + c.fraction), Pow10(|p.fraction| - |c.fraction|);
    PowAdd(|c.fraction|, |p.fraction| - |c.fraction|);
    SignedProduct(p.negative, c.negative, n, k);
    RatioCancel(Signed(c.negative, n), k, Pow10(|c.fraction|));
  }

  lemma {:induction false} SignedProduct(a: bool, b: bool, n: int, k: int)
    requires a != b ==> n == 0
    ensures Signed(a, n * k) == Signed(b, n) * k
  {
  }

  lemma {:induction false} NormalizeJoins(raw: string)
    requires Normalize(raw).Ok?
    ensures Normalize(raw).value == Join(CanonicalForm(Split(Strip(raw))))
    ensures Numeral(Split(Strip(raw)))
  {
  }

  /** Normalising keeps the exact value and yields a canonical string. */
  lemma {:induction false} NormalizePreservesValue(raw: string)
    requires Normalize(raw).Ok?
    ensures Value(Normalize(raw).value) == Value(Strip(raw))
    ensures Canonical(Normalize(raw).value)
  {
    NormalizeJoins(raw);
    var p := Split(Strip(raw));
    CanonicalFormValue(p);
    SplitJoin(CanonicalForm(p));
  }

  lemma {:induction false} ScaleStep(m: int, n: int, a: int, k: int)
    requires a >= 1 && m * (a * (10 * k)) == n * a
    ensures n == 10 * (m * k)
  {
    assert m * (a * (10 * k)) == (10 * (m * k)) * a;
    CancelFactor(10 * (m * k), n, a);
  }

  /** A canonical numeral with a longer fraction cannot have the same value: its last digit is not 0. */
  lemma {:induction false} ScalesAgree(p: Parts, q: Parts)
    requires CanonicalParts(p) && CanonicalParts(q) && PartsValue(p) == PartsValue(q)
    ensures |p.fraction| >= |q.fraction|
  {
    hide DigitsValue, NoLeadingZero, Pow10, Numeral;
    var s, t := |p.fraction|, |q.fraction|;
    if s < t {
      var m, n := Signed(p.negative, DigitsValue(p.integer + p.fraction)),
        Signed(q.negative, DigitsValue(q.integer + q.fraction));
      RatioEqual(m, Pow10(s), n, Pow10(t));
      var k := Pow10(t - s - 1);
      PowAdd(s, t - s);
      PowNext(t - s);
      ScaleStep(m, n, Pow10(s), k);
      LastDigit(q, n);
    }
  }

  lemma {:induction false} PowNext(n: nat)
    requires n > 0
    ensures Pow10(n) == 10 * Pow10(n - 1)
  {
  }

  lemma {:induction false} LastDigit(q: Parts, n: int)
    requires CanonicalParts(q) && q.fraction != ""
    requires n == DigitsValue(q.integer + q.fraction) || n == -DigitsValue(q.integer + q.fraction)
    ensures n % 10 != 0
  {
    var digits := q.integer + q.fraction;
    assert digits[|digits| - 1] == q.fraction[|q.fraction| - 1];
  }

  lemma {:induction false} MulStrict(a: int, b: int, k: int)
    requires k >= 1
    ensures a < b ==> a * k + k <= b * k
  {
    if a < b {
      var d := b - a - 1;
      assert d * k >= 0;
      assert b * k == (a + (1 + d)) * k == a * k + (1 + d) * k;
    }
  }

  lemma {:induction false} CancelFactor(a: int, b: int, k: int)
    requires k >= 1 && a * k == b * k
    ensures a == b
  {
    MulStrict(a, b, k);
    MulStrict(b, a, k);
  }

  lemma {:induction false} SplitQuotient(h: int, l: int, k: int, h': int, l': int)
    requires k >= 1 && 0 <= l < k && 0 <= l' < k && h * k + l == h' * k + l'
    ensures h == h' && l == l'
  {
    MulStrict(h, h', k);
    MulStrict(h', h, k);
  }

  lemma {:induction false} CanonicalPartsUnique(p: Parts, q: Parts)
    requires CanonicalParts(p) && CanonicalParts(q) && PartsValue(p) == PartsValue(q)
    ensures p == q
  {
    hide DigitsValue, Pow10;
    ScalesAgree(p, q);
    ScalesAgree(q, p);
    var m, n := DigitsValue(p.integer + p.fraction), DigitsValue(q.integer + q.fraction);
    var k := Pow10(|p.fraction|);
    RatioEqual(Signed(p.negative, m), k, Signed(q.negative, n), k);
    CancelFactor(Signed(p.negative, m), Signed(q.negative, n), k);
    DigitsValueBound(p.integer + p.fraction);
    DigitsValueBound(q.integer + q.fraction);
    assert m == n;
    DigitsValueConcat(p.integer, p.fraction);
    DigitsValueConcat(q.integer, q.fraction);
    DigitsValueBound(p.fraction);
    DigitsValueBound(q.fraction);
    SplitQuotient(DigitsValue(p.integer), DigitsValue(p.fraction), k, DigitsValue(q.integer), DigitsValue(q.fraction));
    CanonicalIntegers(p.integer, q.integer);
    SameLengthDigits(p.fraction, q.fraction);
    if p.negative != q.negative {
      assert m == 0;
      OnlyZeroIsUnsigned(p);
      OnlyZeroIsUnsigned(q);
    }
  }

  /** A canonical zero is written "0", without sign. */
  lemma {:induction false} OnlyZeroIsUnsigned(p: Parts)
    requires CanonicalParts(p) && DigitsValue(p.integer + p.fraction) == 0
    ensures !p.negative
  {
    hide DigitsValue, Pow10;
    var k := Pow10(|p.fraction|);
    DigitsValueConcat(p.integer, p.fraction);
    DigitsValueBound(p.integer);
    DigitsValueBound(p.fraction);
    MulStrict(0, DigitsValue(p.integer), k);
    assert DigitsValue(p.integer) == 0 && DigitsValue(p.fraction) == 0;
    OneDigit('0');
    CanonicalIntegers(p.integer, "0");
    ZeroFraction(p.fraction);
  }

  lemma {:induction false} ZeroFraction(f: string)
    requires AllDigits(f) && DigitsValue(f) == 0
    requires f == "" || f[|f| - 1] != '0'
    ensures f == ""
  {
    if |f| > 0 { DigitsValueBound(f[..|f| - 1]); }
  }

  /** Canonical strings are numerals in one-to-one correspondence with numbers. */
  lemma {:induction false} CanonicalUnique(a: string, b: string)
    requires Canonical(a) && Canonical(b)
    ensures Value(a) == Value(b) <==> a == b
  {
    if Value(a) == Value(b) { CanonicalPartsUnique(Split(a), Split(b)); }
  }

  /** Two accepted spellings share a canonical string exactly when they denote the same number. */
  lemma {:induction false} NormalizeIdentifiesEqualNumbers(left: string, right: string)
    requires Normalize(left).Ok? && Normalize(right).Ok?
    ensures Normalize(left) == Normalize(right) <==> Value(Strip(left)) == Value(Strip(right))
  {
    NormalizePreservesValue(left);
    NormalizePreservesValue(right);
    CanonicalUnique(Normalize(left).value, Normalize(right).value);
  }

  // ---------------------------------------------------------------- renormalising

  lemma {:induction false} DigitCountConcat(a: string, b: string)
    ensures DigitCount(a + b) == DigitCount(a) + DigitCount(b)
  {
    if |a| == 0 {
      assert a + b == b;
    } else {
      assert (a + b)[1..] == a[1..] + b;
      DigitCountConcat(a[1..], b);
    }
  }

  lemma {:induction false} DigitCountAll(a: string)
    requires AllDigits(a)
    ensures DigitCount(a) == |a|
  {
    if |a| > 0 { DigitCountAll(a[1..]); }
  }

  function SignText(p: Parts): string { if p.negative then "-" else "" }

  function DotText(p: Parts): string { if p.dot then "." else "" }

  lemma {:induction false} TextOfParts(text: string)
    ensures var p := Split(text); text == SignText(p) + (p.integer + (DotText(p) + p.fraction))
  {
  }

  lemma {:induction false} PartsDigitCount(text: string)
    requires IsNumeral(text)
    ensures DigitCount(text) == |Split(text).integer| + |Split(text).fraction|
    ensures DigitCount(text) <= |text| <= 2 + DigitCount(text)
    ensures forall c :: c in text ==> !IsSpace(c)
  {
    hide Split;
    var p := Split(text);
    TextOfParts(text);
    var s, d := SignText(p), DotText(p);
    DigitCountConcat(s, p.integer + (d + p.fraction));
    DigitCountConcat(p.integer, d + p.fraction);
    DigitCountConcat(d, p.fraction);
    DigitCountAll(p.integer);
    DigitCountAll(p.fraction);
    assert DigitCount(s) == 0 && DigitCount(d) == 0;
    forall c | c in text ensures !IsSpace(c) {
      assert c in s || c in p.integer || c in d || c in p.fraction;
    }
  }

  lemma {:induction false} StripFixed(s: string)
    requires forall c :: c in s ==> !IsSpace(c)
    ensures Strip(s) == s
  {
  }

  /** A canonical string within the digit limit renormalises to itself; beyond it, it is refused. */
  lemma {:induction false} RenormalizeCanonical(text: string)
    requires Canonical(text)
    ensures Normalize(text) == if DigitCount(text) <= MAX_DECIMAL_DIGITS then Ok(text) else Err(InvalidDecimal)
  {
    hide Split, DigitCount, Strip, Join;
    PartsDigitCount(text);
    StripFixed(text);
    if DigitCount(text) <= MAX_DECIMAL_DIGITS {
      CanonicalFormFixed(Split(text));
      NormalizeJoins(text);
    }
  }

  lemma {:induction false} CanonicalFormFixed(p: Parts)
    requires CanonicalParts(p)
    ensures CanonicalForm(p) == p && Numeral(p)
  {
    assert TrimLeadingZeros("0") == "" by { assert "0"[1..] == ""; }
  }

  /** Dot first, all 128 permitted digits behind it, the last of them significant. */
  predicate FillsTheLimitBehindADot(p: Parts) {
    p.integer == "" && |p.fraction| == MAX_DECIMAL_DIGITS && p.fraction[MAX_DECIMAL_DIGITS - 1] != '0'
  }

  /**
   * normalize_decimal is idempotent except on one family of inputs: those gain a digit
   * ("0" before the dot), so their own canonical form is refused.
   */
  lemma {:induction false} NormalizeIdempotent(raw: string)
    requires Normalize(raw).Ok?
    ensures Normalize(Normalize(raw).value) == Normalize(raw) <==> !FillsTheLimitBehindADot(Split(Strip(raw)))
  {
    var text, out := Strip(raw), Normalize(raw).value;
    NormalizePreservesValue(raw);
    NormalizeJoins(raw);
    PartsDigitCount(text);
    PartsDigitCount(out);
    RenormalizeCanonical(out);
    CanonicalFormValue(Split(text));
    SplitJoin(CanonicalForm(Split(text)));
    CanonicalFormLength(Split(text));
  }

  /** Only a numeral with no integer digit can grow, by one digit, and only if no fraction digit is dropped. */
  lemma {:induction false} CanonicalFormLength(p: Parts)
    requires Numeral(p) && |p.integer| + |p.fraction| <= MAX_DECIMAL_DIGITS
    ensures var c := CanonicalForm(p); |c.integer| + |c.fraction| > MAX_DECIMAL_DIGITS <==> FillsTheLimitBehindADot(p)
  {
    var f := p.fraction;
    IntegerValue(p.integer);
    TrimTrailingValue("", f);
    if p.integer == "" {
      TrimmedLength(f);
    }
  }

  lemma {:induction false} TrimmedLength(f: string)
    requires AllDigits(f) && f != ""
    ensures |TrimTrailingZeros(f)| == |f| <==> f[|f| - 1] != '0'
    ensures |TrimTrailingZeros(f)| <= |f|
  {
    TrimTrailingValue("", f);
    TrimTrailingValue("", f[..|f| - 1]);
  }

  /** A dot, 127 zeros and a one. */
  function TinyNumber(): string { "." + seq(MAX_DECIMAL_DIGITS - 1, _ => '0') + "1" }

  /** The exception is real: this number is accepted, and its own canonical form is refused. */
  lemma {:induction false} NormalizeTwiceFails()
    ensures Normalize(TinyNumber()).Ok? && FillsTheLimitBehindADot(Split(Strip(TinyNumber())))
    ensures Normalize(Normalize(TinyNumber()).value) == Err(InvalidDecimal)
  {
    var text := TinyNumber();
    var fraction := seq(MAX_DECIMAL_DIGITS - 1, _ => '0') + "1";
    assert text == "." + fraction && |text| == 129;
    assert Split(text) == Parts(false, "", true, fraction) by { assert text[..0] == "" && text[1..] == fraction; }
    assert Numeral(Split(text));
    PartsDigitCount(text);
    StripFixed(text);
    assert Normalize(text).Ok?;
    NormalizeIdempotent(text);
    NormalizePreservesValue(text);
    RenormalizeCanonical(Normalize(text).value);
  }

  // ---------------------------------------------------------------- comparison

  /** compare_canonical_decimals: -1, 0 or 1; Decimal(...) and its comparisons are exact. */
  function Compare(left: string, right: string): Result<int, DecimalError> {
    var l :- Normalize(left);
    var r :- Normalize(right);
    Ok((if Value(l) > Value(r) then 1 else 0) - (if Value(l) < Value(r) then 1 else 0))
  }

  /** Comparison follows the numbers denoted, and is 0 exactly on equal canonical strings. */
  lemma {:induction false} CompareOrdersNumbers(left: string, right: string)
    requires Normalize(left).Ok? && Normalize(right).Ok?
    ensures Compare(left, right).Ok?
    ensures Compare(left, right).value < 0 <==> Value(Strip(left)) < Value(Strip(right))
    ensures Compare(left, right).value > 0 <==> Value(Strip(left)) > Value(Strip(right))
    ensures Compare(left, right).value == 0 <==> Normalize(left) == Normalize(right)
  {
    NormalizePreservesValue(left);
    NormalizePreservesValue(right);
    NormalizeIdentifiesEqualNumbers(left, right);
  }
}
