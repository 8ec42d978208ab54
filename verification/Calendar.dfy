/**
 * Strict ISO datetimes and day numbers (frontend/src/api/historyQuery.ts).
 *
 * `CivilDays` is the closed formula of the program. It is proved equal to counting days by year
 * and month lengths (section 5.7 and Appendix C of RFC 3339), and `Compare` to order datetimes
 * as their UTC calendar readings are ordered.
 */
module Calendar {
  import opened Results
  import opened Texts

  datatype ParseError = InvalidDatetime

  /** A datetime as written; `offset` is the UTC offset in minutes. */
  datatype Parts = Parts(year: int, month: int, day: int, hour: int, minute: int, second: int, millisecond: int,
      offset: int)

  // ---------------------------------------------------------------- month lengths

  predicate IsLeapYear(year: int) { year % 4 == 0 && (year % 100 != 0 || year % 400 == 0) }

  function DaysInMonth(year: int, month: int): int {
    if month in {1, 3, 5, 7, 8, 10, 12} then 31
    else if month in {4, 6, 9, 11} then 30
    else if month == 2 then (if IsLeapYear(year) then 29 else 28)
    else 0
  }

  predicate ValidDate(year: int, month: int, day: int) {
    year >= 0 && 1 <= month <= 12 && 1 <= day <= DaysInMonth(year, month)
  }

  // ---------------------------------------------------------------- the closed formula

  /** Floored division, as `Math.floor` of a quotient by a positive number. */
  function CivilDays(year: int, month: int, day: int): int {
    var adjustedYear := if month <= 2 then year - 1 else year;
    var era := adjustedYear / 400;
    var yearOfEra := adjustedYear - era * 400;
    var adjustedMonth := month + (if month > 2 then -3 else 9);
    var dayOfYear := (153 * adjustedMonth + 2) / 5 + day - 1;
    var dayOfEra := yearOfEra * 365 + yearOfEra / 4 - yearOfEra / 100 + yearOfEra / 400 + dayOfYear;
    era * 146097 + dayOfEra - 719468
  }

  function EpochMillis(p: Parts): int {
    (((CivilDays(p.year, p.month, p.day) * 24 + p.hour) * 60 + p.minute - p.offset) * 60 + p.second) * 1000
      + p.millisecond
  }

  // ---------------------------------------------------------------- counting days

  function YearLength(year: int): int { if IsLeapYear(year) then 366 else 365 }

  /** The days of years 0 to `year` - 1. */
  function DaysBeforeYear(year: nat): nat { if year == 0 then 0 else DaysBeforeYear(year - 1) + YearLength(year - 1) }

  /** The days of months 1 to `month` - 1. */
  function DaysBeforeMonth(year: int, month: nat): nat
    requires 1 <= month <= 13
  {
    if month == 1 then 0 else DaysBeforeMonth(year, month - 1) + DaysInMonth(year, month - 1)
  }

  function CountedDays(year: nat, month: nat, day: int): int
    requires 1 <= month <= 12
  {
    DaysBeforeYear(year) + DaysBeforeMonth(year, month) + day - 1 - DaysBeforeYear(1970)
  }

  /** Days before March of year `y`, counted from March of year 0. */
  function MarchYears(y: int): int { 365 * y + y / 4 - y / 100 + y / 400 }

  lemma {:induction false} EraSplit(y: int)
    ensures var era := y / 400;
      var yearOfEra := y - era * 400;
      era * 146097 + yearOfEra * 365 + yearOfEra / 4 - yearOfEra / 100 + yearOfEra / 400 == MarchYears(y)
  {
    var era := y / 400;
    var yearOfEra := y - era * 400;
    assert 0 <= yearOfEra < 400;
    assert y / 4 == era * 100 + yearOfEra / 4;
    assert y / 100 == era * 4 + yearOfEra / 100;
  }

  lemma {:induction false} MarchYearStep(y: int)
    ensures MarchYears(y) == MarchYears(y - 1) + YearLength(y)
  {
    QuotientStep(y, 4);
    QuotientStep(y, 100);
    QuotientStep(y, 400);
    Multiples(y);
  }

  lemma {:induction false} QuotientStep(y: int, k: int)
    requires k > 1
    ensures y / k == (y - 1) / k + (if y % k == 0 then 1 else 0)
  {
    var q, r := (y - 1) / k, (y - 1) % k;
    assert y - 1 == q * k + r;
    if r == k - 1 {
      assert y == (q + 1) * k by { Distribute(q, k); }
      DivUnique(y, k, q + 1, 0);
    } else {
      DivUnique(y, k, q, r + 1);
    }
  }

  lemma {:induction false} Distribute(q: int, k: int)
    ensures (q + 1) * k == q * k + k
  {
  }

  lemma {:induction false} DivUnique(y: int, k: int, q: int, r: int)
    requires k > 0 && y == q * k + r && 0 <= r < k
    ensures y / k == q && y % k == r
  {
    var q', r' := y / k, y % k;
    assert (q - q') * k == r' - r by {
      assert y == q' * k + r';
      Difference(q, q', k);
    }
    if q != q' {
      if q > q' { ProductAtLeast(q - q', k); } else { ProductAtLeast(q' - q, k); Negated(q - q', k); }
    }
  }

  lemma {:induction false} Difference(a: int, b: int, k: int)
    ensures (a - b) * k == a * k - b * k
  {
  }

  lemma {:induction false} Negated(a: int, k: int)
    ensures (-a) * k == -(a * k)
  {
  }

  lemma {:induction false} ProductAtLeast(a: int, k: int)
    requires a >= 1 && k > 0
    ensures a * k >= k
  {
  }

  lemma {:induction false} Multiples(y: int)
    ensures y % 400 == 0 ==> y % 100 == 0
    ensures y % 100 == 0 ==> y % 4 == 0
  {
  }

  lemma {:induction false} YearsCounted(year: nat)
    ensures DaysBeforeYear(year) == MarchYears(year - 1) + 366
  {
    hide MarchYears, YearLength;
    if year > 0 {
      YearsCounted(year - 1);
      MarchYearStep(year - 1);
    } else {
      BeforeYearZero();
    }
  }

  lemma {:induction false} BeforeYearZero()
    ensures MarchYears(-1) == -366
  {
  }

  lemma {:induction false} EpochYear()
    ensures DaysBeforeYear(1970) == 719528
  {
    YearsCounted(1970);
  }

  lemma {:induction false} MonthsCounted(year: int, month: nat)
    requires 1 <= month <= 12
    ensures month > 2 ==> DaysBeforeMonth(year, month) == (153 * (month - 3) + 2) / 5 + YearLength(year) - 306
    ensures month <= 2 ==> DaysBeforeMonth(year, month) == (153 * (month + 9) + 2) / 5 - 306
  {
    hide IsLeapYear;
    assert DaysBeforeMonth(year, 2) == 31;
    assert DaysBeforeMonth(year, 3) == YearLength(year) - 306;
    assert DaysBeforeMonth(year, 4) == YearLength(year) - 275;
    assert DaysBeforeMonth(year, 5) == YearLength(year) - 245;
    assert DaysBeforeMonth(year, 6) == YearLength(year) - 214;
    assert DaysBeforeMonth(year, 7) == YearLength(year) - 184;
    assert DaysBeforeMonth(year, 8) == YearLength(year) - 153;
    assert DaysBeforeMonth(year, 9) == YearLength(year) - 122;
    assert DaysBeforeMonth(year, 10) == YearLength(year) - 92;
    assert DaysBeforeMonth(year, 11) == YearLength(year) - 61;
    assert DaysBeforeMonth(year, 12) == YearLength(year) - 31;
  }

  /** The formula counts days: year lengths, then month lengths, then the day of the month. */
  lemma {:induction false} CivilDaysCounts(year: nat, month: nat, day: int)
    requires 1 <= month <= 12
    ensures CivilDays(year, month, day) == CountedDays(year, month, day)
  {
    hide MarchYears, IsLeapYear, DaysBeforeYear, DaysBeforeMonth, YearLength;
    EpochYear();
    YearsCounted(year);
    MonthsCounted(year, month);
    if month > 2 {
      EraSplit(year);
      MarchYearStep(year);
    } else {
      EraSplit(year - 1);
    }
  }

  // ---------------------------------------------------------------- successors and order

  datatype Date = Date(year: int, month: int, day: int)

  predicate IsDate(d: Date) { ValidDate(d.year, d.month, d.day) }

  function DayNumber(d: Date): int { CivilDays(d.year, d.month, d.day) }

  function NextDay(d: Date): (r: Date)
    requires IsDate(d)
    ensures IsDate(r)
  {
    if d.day < DaysInMonth(d.year, d.month) then d.(day := d.day + 1)
    else if d.month < 12 then Date(d.year, d.month + 1, 1)
    else Date(d.year + 1, 1, 1)
  }

  predicate DateBefore(a: Date, b: Date) {
    a.year < b.year || (a.year == b.year && (a.month < b.month || (a.month == b.month && a.day < b.day)))
  }

  lemma {:induction false} EpochIsDayZero()
    ensures DayNumber(Date(1970, 1, 1)) == 0
  {
  }

  /** Each day's number is one more than the day's before. */
  lemma {:induction false} NextDayNumber(d: Date)
    requires IsDate(d)
    ensures DayNumber(NextDay(d)) == DayNumber(d) + 1
  {
    hide CivilDays, DaysInMonth, YearLength;
    var next := NextDay(d);
    CivilDaysCounts(d.year, d.month, d.day);
    CivilDaysCounts(next.year, next.month, next.day);
    if d.month == 12 { DecemberEndsYear(d.year); }
  }

  lemma {:induction false} DecemberEndsYear(year: int)
    ensures DaysBeforeMonth(year, 12) + DaysInMonth(year, 12) == YearLength(year)
  {
    MonthsCounted(year, 12);
  }

  lemma {:induction false} YearsGrow(a: nat, b: nat)
    requires a < b
    ensures DaysBeforeYear(a) + YearLength(a) <= DaysBeforeYear(b)
    decreases b
  {
    hide IsLeapYear;
    if a < b - 1 { YearsGrow(a, b - 1); }
  }

  lemma {:induction false} MonthsGrow(year: int, a: nat, b: nat)
    requires 1 <= a < b <= 13
    ensures DaysBeforeMonth(year, a) + DaysInMonth(year, a) <= DaysBeforeMonth(year, b)
    decreases b
  {
    if a < b - 1 { MonthsGrow(year, a, b - 1); }
  }

  lemma {:induction false} EarlierIsSmaller(a: Date, b: Date)
    requires IsDate(a) && IsDate(b) && DateBefore(a, b)
    ensures DayNumber(a) < DayNumber(b)
  {
    hide CivilDays, DaysInMonth, YearLength, DaysBeforeYear, DaysBeforeMonth;
    CivilDaysCounts(a.year, a.month, a.day);
    CivilDaysCounts(b.year, b.month, b.day);
    if a.year < b.year {
      YearsGrow(a.year, b.year);
      WithinYear(a.year, a.month);
    } else if a.month < b.month {
      MonthsGrow(a.year, a.month, b.month);
    }
  }

  lemma {:induction false} WithinYear(year: int, month: nat)
    requires 1 <= month <= 12
    ensures DaysBeforeMonth(year, month) + DaysInMonth(year, month) <= YearLength(year)
  {
    hide DaysInMonth, YearLength, DaysBeforeMonth;
    DecemberEndsYear(year);
    if month < 12 { MonthsGrow(year, month, 12); MonthLengthPositive(year, 12); }
  }

  lemma {:induction false} MonthLengthPositive(year: int, month: nat)
    requires 1 <= month <= 12
    ensures DaysInMonth(year, month) >= 28
  {
  }

  /** Day numbers order dates, and no two dates share one. */
  lemma {:induction false} DayNumbersOrderDates(a: Date, b: Date)
    requires IsDate(a) && IsDate(b)
    ensures DateBefore(a, b) <==> DayNumber(a) < DayNumber(b)
    ensures a == b <==> DayNumber(a) == DayNumber(b)
  {
    hide CivilDays, ValidDate;
    if DateBefore(a, b) { EarlierIsSmaller(a, b); }
    if DateBefore(b, a) { EarlierIsSmaller(b, a); }
  }

  // ---------------------------------------------------------------- parsing

  function Number(s: string): nat {
    if |s| == 0 then 0
      else Number(s[..|s| - 1]) * 10 + (if IsDigit(s[|s| - 1]) then s[|s| - 1] as int - '0' as int else 0)
  }

  predicate Digits(s: string) { forall i :: 0 <= i < |s| ==> IsDigit(s[i]) }

  predicate DigitsAt(s: string, from: nat, count: nat) { from + count <= |s| && Digits(s[from..from + count]) }

  predicate CharAt(s: string, i: nat, c: char) { i < |s| && s[i] == c }

  /** `YYYY-MM-DDTHH:MM`, the mandatory first sixteen characters. */
  predicate HasPrefix(s: string) {
    && DigitsAt(s, 0, 4) && CharAt(s, 4, '-') && DigitsAt(s, 5, 2) && CharAt(s, 7, '-') && DigitsAt(s, 8, 2)
    && CharAt(s, 10, 'T') && DigitsAt(s, 11, 2) && CharAt(s, 13, ':') && DigitsAt(s, 14, 2)
  }

  predicate IsZone(z: string) {
    || z == "" || z == "Z"
    || (|z| == 6 && (z[0] == '+' || z[0] == '-') && DigitsAt(z, 1, 2) && z[3] == ':' && DigitsAt(z, 4, 2))
  }

  /** The digits after a decimal point, at most three. */
  function FractionLength(s: string, from: nat): (n: nat)
    requires from <= |s|
    ensures n <= 3 && from + n <= |s|
  {
    if from < |s| && IsDigit(s[from]) then
      if from + 1 < |s| && IsDigit(s[from + 1]) then
        if from + 2 < |s| && IsDigit(s[from + 2]) then 3 else 2
      else 1
    else 0
  }

  datatype Clock = Clock(second: nat, millisecond: nat, zone: string)

  /** Optional seconds, optional fraction, and what remains as the zone. */
  function ReadClock(s: string): Clock
    requires |s| >= 16
  {
    if CharAt(s, 16, ':') && DigitsAt(s, 17, 2) then
      var second := Number(s[17..19]);
      var n := if CharAt(s, 19, '.') then FractionLength(s, 20) else 0;
      if n > 0 then Clock(second, Number(s[20..20 + n]) * (if n == 1 then 100 else if n == 2 then 10 else 1),
        s[20 + n..])
      else Clock(second, 0, s[19..])
    else Clock(0, 0, s[16..])
  }

  function ZoneOffset(z: string): Result<int, ParseError>
    requires IsZone(z)
  {
    if z == "" || z == "Z" then Ok(0)
    else
      var hours, minutes := Number(z[1..3]), Number(z[4..6]);
      if hours > 23 || minutes > 59 then Err(InvalidDatetime)
      else Ok((if z[0] == '-' then -1 else 1) * (hours * 60 + minutes))
  }

  function ParseStrict(s: string): Result<Parts, ParseError> {
    if !HasPrefix(s) || !IsZone(ReadClock(s).zone) then Err(InvalidDatetime)
    else
      var year, month, day := Number(s[0..4]), Number(s[5..7]), Number(s[8..10]);
      var hour, minute := Number(s[11..13]), Number(s[14..16]);
      var clock := ReadClock(s);
      if year < 1 || month < 1 || month > 12 || day < 1 || day > DaysInMonth(year, month) then Err(InvalidDatetime)
      else if hour > 23 || minute > 59 || clock.second > 59 || clock.millisecond > 999 then Err(InvalidDatetime)
      else
        var offset :- ZoneOffset(clock.zone);
        Ok(Parts(year, month, day, hour, minute, clock.second, clock.millisecond, offset))
  }

  predicate ValidParts(p: Parts) {
    && 1 <= p.year <= 9999 && ValidDate(p.year, p.month, p.day)
    && 0 <= p.hour <= 23 && 0 <= p.minute <= 59 && 0 <= p.second <= 59 && 0 <= p.millisecond <= 999
    && -1440 < p.offset < 1440
  }

  lemma {:induction false} NumberBound(s: string)
    requires |s| <= 4
    ensures Number(s) < (if |s| == 0 then 1 else if |s| == 1 then 10 else if |s| == 2 then 100
      else if |s| == 3 then 1000 else 10000)
  {
    if |s| > 0 { NumberBound(s[..|s| - 1]); }
  }

  lemma {:induction false} ParsedPartsValid(s: string)
    requires ParseStrict(s).Ok?
    ensures ValidParts(ParseStrict(s).value)
  {
    hide DaysInMonth, Number, Digits, IsDigit;
    NumberBound(s[0..4]);
  }

  // ---------------------------------------------------------------- comparing

  /** A UTC reading: date, minute of the day, second and millisecond. */
  datatype Utc = Utc(date: Date, minuteOfDay: int, second: int, millisecond: int)

  function PreviousDay(d: Date): (r: Date)
    requires IsDate(d) && d.year >= 1
    ensures IsDate(r) && NextDay(r) == d
  {
    if d.day > 1 then d.(day := d.day - 1)
    else if d.month > 1 then Date(d.year, d.month - 1, DaysInMonth(d.year, d.month - 1))
    else Date(d.year - 1, 12, 31)
  }

  /** The written time less its offset, carried into the day before or after. */
  function ToUtc(p: Parts): Utc
    requires ValidParts(p)
  {
    var date := Date(p.year, p.month, p.day);
    var minutes := p.hour * 60 + p.minute - p.offset;
    if minutes < 0 then Utc(PreviousDay(date), minutes + 1440, p.second, p.millisecond)
    else if minutes >= 1440 then Utc(NextDay(date), minutes - 1440, p.second, p.millisecond)
    else Utc(date, minutes, p.second, p.millisecond)
  }

  predicate UtcBefore(a: Utc, b: Utc) {
    DateBefore(a.date, b.date)
    || (a.date == b.date && (a.minuteOfDay < b.minuteOfDay
        || (a.minuteOfDay == b.minuteOfDay
          && (a.second < b.second || (a.second == b.second && a.millisecond < b.millisecond)))))
  }

  function UtcMillis(u: Utc): int {
    ((DayNumber(u.date) * 1440 + u.minuteOfDay) * 60 + u.second) * 1000 + u.millisecond
  }

  lemma {:induction false} UtcMillisAgree(p: Parts)
    requires ValidParts(p)
    ensures EpochMillis(p) == UtcMillis(ToUtc(p))
    ensures IsDate(ToUtc(p).date) && 0 <= ToUtc(p).minuteOfDay < 1440
  {
    hide CivilDays, DaysInMonth;
    var date := Date(p.year, p.month, p.day);
    var minutes := p.hour * 60 + p.minute - p.offset;
    if minutes < 0 { NextDayNumber(PreviousDay(date)); }
    if minutes >= 1440 { NextDayNumber(date); }
  }

  /** compareIsoDatetimes: the difference of the two instants in milliseconds. */
  function Compare(left: string, right: string): Result<int, ParseError> {
    var l :- ParseStrict(left);
    var r :- ParseStrict(right);
    Ok(EpochMillis(l) - EpochMillis(r))
  }

  /** The comparison is negative, zero or positive as the UTC calendar readings are ordered. */
  lemma {:induction false} CompareOrdersInstants(left: string, right: string)
    requires Compare(left, right).Ok?
    ensures ParseStrict(left).Ok? && ParseStrict(right).Ok?
    ensures ValidParts(ParseStrict(left).value) && ValidParts(ParseStrict(right).value)
    ensures var l, r := ToUtc(ParseStrict(left).value), ToUtc(ParseStrict(right).value);
      && (Compare(left, right).value < 0 <==> UtcBefore(l, r))
      && (Compare(left, right).value == 0 <==> l == r)
  {
    hide CivilDays, DaysInMonth, ParseStrict, ToUtc, EpochMillis;
    ParsedPartsValid(left);
    ParsedPartsValid(right);
    UtcMillisAgree(ParseStrict(left).value);
    UtcMillisAgree(ParseStrict(right).value);
    ClockRange(ParseStrict(left).value);
    ClockRange(ParseStrict(right).value);
    MillisOrder(ToUtc(ParseStrict(left).value), ToUtc(ParseStrict(right).value));
  }

  lemma {:induction false} ClockRange(p: Parts)
    requires ValidParts(p)
    ensures 0 <= ToUtc(p).second < 60 && 0 <= ToUtc(p).millisecond < 1000
  {
  }

  lemma {:induction false} MillisOrder(a: Utc, b: Utc)
    requires IsDate(a.date) && IsDate(b.date) && 0 <= a.minuteOfDay < 1440 && 0 <= b.minuteOfDay < 1440
    requires 0 <= a.second < 60 && 0 <= b.second < 60 && 0 <= a.millisecond < 1000 && 0 <= b.millisecond < 1000
    ensures UtcMillis(a) < UtcMillis(b) <==> UtcBefore(a, b)
    ensures UtcMillis(a) == UtcMillis(b) <==> a == b
  {
    hide CivilDays, DaysInMonth, DateBefore, IsDate, DayNumber;
    DayNumbersOrderDates(a.date, b.date);
    DayNumbersOrderDates(b.date, a.date);
  }

  const SAFE_INTEGER := 0x20_0000_0000_0000

  /** Every intermediate value stays far inside the integers a double represents exactly. */
  lemma {:induction false} ExactInDoubles(p: Parts)
    requires ValidParts(p)
    ensures -SAFE_INTEGER < EpochMillis(p) < SAFE_INTEGER
    ensures -1_000_000 <= CivilDays(p.year, p.month, p.day) <= 4_000_000
  {
    hide CivilDays;
    DayRange(p);
  }

  lemma {:induction false} DayRange(p: Parts)
    requires ValidParts(p)
    ensures -1_000_000 <= CivilDays(p.year, p.month, p.day) <= 4_000_000
  {
    var d := Date(p.year, p.month, p.day);
    assert DayNumber(Date(1, 1, 1)) == -719162;
    assert DayNumber(Date(9999, 12, 31)) == 2932896;
    hide CivilDays;
    DayNumbersOrderDates(Date(1, 1, 1), d);
    DayNumbersOrderDates(d, Date(9999, 12, 31));
  }
}
