/**
 * The one timestamp format every script parses: `"%Y-%m-%dT%H:%M:%SZ"`, read as
 * UTC (for example `2026-01-25T10:00:00Z`). An instant is modelled as whole
 * seconds since 1970-01-01T00:00:00Z; a local calendar date as a day number in
 * a zone given by a fixed offset in seconds (the scripts' Pacific zone).
 */
module Timestamps {
  import opened Wrappers
  import opened Text
  import Seqs

  /** The broken-down fields that `strptime` fills in. */
  datatype DateTime = DateTime(year: int, month: int, day: int, hour: int, minute: int, second: int)

  const SecondsPerDay: int := 86400

  predicate IsLeap(y: int) {
    y % 4 == 0 && (y % 100 != 0 || y % 400 == 0)
  }

  function DaysInMonth(y: int, m: int): int
    requires 1 <= m <= 12
  {
    if m == 2 then (if IsLeap(y) then 29 else 28)
    else if m == 4 || m == 6 || m == 9 || m == 11 then 30
    else 31
  }

  function DaysInYear(y: int): int {
    if IsLeap(y) then 366 else 365
  }

  /** The ranges `datetime` accepts (a second of 60 or 61 makes the constructor raise). */
  predicate Valid(t: DateTime) {
    && 1 <= t.year <= 9999
    && 1 <= t.month <= 12
    && 1 <= t.day <= DaysInMonth(t.year, t.month)
    && 0 <= t.hour < 24
    && 0 <= t.minute < 60
    && 0 <= t.second < 60
  }

  function Pow10(w: nat): nat {
    if w == 0 then 1 else 10 * Pow10(w - 1)
  }

  function DigitChar(d: nat): char
    requires d < 10
  {
    ('0' as int + d) as char
  }

  function DigitValue(c: char): nat
    requires IsDigit(c)
  {
    c as int - '0' as int
  }

  predicate AllDigits(s: string) {
    forall i :: 0 <= i < |s| ==> IsDigit(s[i])
  }

  /** The decimal value of a string of digits. */
  function Digits(s: string): nat
    requires AllDigits(s)
  {
    if s == [] then 0 else 10 * Digits(s[..|s| - 1]) + DigitValue(s[|s| - 1])
  }

  /** `n` written with exactly `w` digits, zero-padded (`%04d`, `%02d`). */
  function Pad(n: nat, w: nat): (r: string)
    ensures |r| == w && AllDigits(r)
  {
    if w == 0 then [] else Pad(n / 10, w - 1) + [DigitChar(n % 10)]
  }

  /** `str(n)` for a natural number: its decimal digits, without leading zeros. */
  function Decimal(n: nat): (r: string)
    ensures r != [] && AllDigits(r)
    ensures r[0] == '0' ==> n == 0
  {
    if n < 10 then [DigitChar(n)] else Decimal(n / 10) + [DigitChar(n % 10)]
  }

  /** Reading the digits back gives the number. */
  lemma {:induction false} DigitsDecimal(n: nat)
    ensures Digits(Decimal(n)) == n
  {
    if n >= 10 {
      DigitsDecimal(n / 10);
      var r := Decimal(n);
      assert r[..|r| - 1] == Decimal(n / 10);
    }
  }

  /** `str(i)` for any integer. */
  function IntString(i: int): (r: string)
    ensures r != []
  {
    if i < 0 then "-" + Decimal(-i) else Decimal(i)
  }

  lemma {:induction false} DigitsPad(n: nat, w: nat)
    requires n < Pow10(w)
    ensures Digits(Pad(n, w)) == n
  {
    if w > 0 {
      DigitsPad(n / 10, w - 1);
      var p := Pad(n, w);
      assert p[..|p| - 1] == Pad(n / 10, w - 1);
    }
  }

  lemma {:induction false} PadDigits(s: string)
    requires AllDigits(s)
    ensures Digits(s) < Pow10(|s|)
    ensures Pad(Digits(s), |s|) == s
  {
    if s != [] {
      var init := s[..|s| - 1];
      PadDigits(init);
      var n := Digits(s);
      assert n / 10 == Digits(init) && n % 10 == DigitValue(s[|s| - 1]);
      assert s == init + [s[|s| - 1]];
    }
  }

  /** The canonical 20-character text of a date-time, as the API sends it. */
  function Format(t: DateTime): (r: string)
    requires Valid(t)
    ensures |r| == 20
  {
    Pad(t.year, 4) + "-" + Pad(t.month, 2) + "-" + Pad(t.day, 2) + "T"
      + Pad(t.hour, 2) + ":" + Pad(t.minute, 2) + ":" + Pad(t.second, 2) + "Z"
  }

  /** The field of `s` from index `i` (inclusive) to `j` (exclusive), read as a number. */
  function Field(s: string, i: nat, j: nat): nat
    requires i <= j <= |s| && AllDigits(s[i..j])
  {
    Digits(s[i..j])
  }

  predicate WellShaped(s: string) {
    && |s| == 20
    && s[4] == '-' && s[7] == '-' && s[10] == 'T'
    && s[13] == ':' && s[16] == ':' && s[19] == 'Z'
    && AllDigits(s[0..4]) && AllDigits(s[5..7]) && AllDigits(s[8..10])
    && AllDigits(s[11..13]) && AllDigits(s[14..16]) && AllDigits(s[17..19])
  }

  /**
   * `datetime.strptime(s, "%Y-%m-%dT%H:%M:%SZ")` on the zero-padded form:
   * `None` stands for the `ValueError` it raises. It accepts exactly the texts
   * that `Format` produces, and reads back the fields they were made from.
   */
  function ParseFields(s: string): (r: Option<DateTime>)
    ensures r.Some? ==> Valid(r.value) && Format(r.value) == s
  {
    if !WellShaped(s) then None
    else
      var t := DateTime(Field(s, 0, 4), Field(s, 5, 7), Field(s, 8, 10),
                        Field(s, 11, 13), Field(s, 14, 16), Field(s, 17, 19));
      if Valid(t) then
        FormatFields(s, t);
        Some(t)
      else None
  }

  lemma FormatFields(s: string, t: DateTime)
    requires WellShaped(s) && Valid(t)
    requires t == DateTime(Field(s, 0, 4), Field(s, 5, 7), Field(s, 8, 10),
                           Field(s, 11, 13), Field(s, 14, 16), Field(s, 17, 19))
    ensures Format(t) == s
  {
    PadDigits(s[0..4]);
    PadDigits(s[5..7]);
    PadDigits(s[8..10]);
    PadDigits(s[11..13]);
    PadDigits(s[14..16]);
    PadDigits(s[17..19]);
    Seqs.Cut20(s);
  }

  /** Round trip: the parser reads back every date-time the API can send. */
  lemma ParseFormat(t: DateTime)
    requires Valid(t)
    ensures ParseFields(Format(t)) == Some(t)
  {
    var s := Format(t);
    FormatShaped(t);
    FormatReadsBack(t);
    assert DateTime(Field(s, 0, 4), Field(s, 5, 7), Field(s, 8, 10),
                    Field(s, 11, 13), Field(s, 14, 16), Field(s, 17, 19)) == t;
  }

  lemma FormatShaped(t: DateTime)
    requires Valid(t)
    ensures WellShaped(Format(t))
  {
    FormatSlices(t);
  }

  /** Each field of the formatted text reads back as the number it was written from. */
  lemma FormatReadsBack(t: DateTime)
    requires Valid(t)
    ensures WellShaped(Format(t))
    ensures var s := Format(t);
      && Field(s, 0, 4) == t.year && Field(s, 5, 7) == t.month && Field(s, 8, 10) == t.day
      && Field(s, 11, 13) == t.hour && Field(s, 14, 16) == t.minute && Field(s, 17, 19) == t.second
  {
    FormatShaped(t);
    FormatSlices(t);
    var s := Format(t);
    assert Pow10(2) == 100 && Pow10(4) == 10000;
    PadField(s, 0, t.year, 4);
    PadField(s, 5, t.month, 2);
    PadField(s, 8, t.day, 2);
    PadField(s, 11, t.hour, 2);
    PadField(s, 14, t.minute, 2);
    PadField(s, 17, t.second, 2);
  }

  /** A field written with `Pad` reads back as its number. */
  lemma PadField(s: string, i: nat, n: nat, w: nat)
    requires i + w <= |s| && s[i..i + w] == Pad(n, w) && n < Pow10(w)
    ensures AllDigits(s[i..i + w]) && Field(s, i, i + w) == n
  {
    DigitsPad(n, w);
  }

  /** Where each field sits in the formatted text. */
  lemma FormatSlices(t: DateTime)
    requires Valid(t)
    ensures var s := Format(t);
      && s[0..4] == Pad(t.year, 4) && s[5..7] == Pad(t.month, 2) && s[8..10] == Pad(t.day, 2)
      && s[11..13] == Pad(t.hour, 2) && s[14..16] == Pad(t.minute, 2) && s[17..19] == Pad(t.second, 2)
      && s[4] == '-' && s[7] == '-' && s[10] == 'T' && s[13] == ':' && s[16] == ':' && s[19] == 'Z'
  {
  }

  /** Days from 0001-01-01 to January 1 of year `y` in the proleptic Gregorian calendar. */
  function DaysBeforeYear(y: int): int
    requires y >= 1
  {
    var p := y - 1;
    365 * p + p / 4 - p / 100 + p / 400
  }

  function DaysBeforeMonth(y: int, m: int): int
    requires 1 <= m <= 12
  {
    var common :=
      if m == 1 then 0 else if m == 2 then 31 else if m == 3 then 59
      else if m == 4 then 90 else if m == 5 then 120 else if m == 6 then 151
      else if m == 7 then 181 else if m == 8 then 212 else if m == 9 then 243
      else if m == 10 then 273 else if m == 11 then 304 else 334;
    if m > 2 && IsLeap(y) then common + 1 else common
  }

  /** Days between 0001-01-01 and 1970-01-01. */
  const EpochDayOffset: int := 719162

  /** The calendar date of `t` as a day number, 0 being 1970-01-01. */
  function DayNumber(t: DateTime): int
    requires Valid(t)
  {
    DaysBeforeYear(t.year) + DaysBeforeMonth(t.year, t.month) + t.day - 1 - EpochDayOffset
  }

  function SecondOfDay(t: DateTime): int {
    t.hour * 3600 + t.minute * 60 + t.second
  }

  /** The instant of a UTC date-time, in seconds since 1970-01-01T00:00:00Z. */
  function Epoch(t: DateTime): int
    requires Valid(t)
  {
    DayNumber(t) * SecondsPerDay + SecondOfDay(t)
  }

  /** Parse a timestamp to an instant; `None` is the parse failure the scripts catch. */
  function ParseInstant(s: string): (r: Option<int>)
    ensures r.Some? <==> ParseFields(s).Some?
  {
    match ParseFields(s)
    case None => None
    case Some(t) => Some(Epoch(t))
  }

  /** The local calendar date (a day number) of an instant in a zone `offset` seconds from UTC. */
  function LocalDate(instant: int, offset: int): int {
    (instant + offset) / SecondsPerDay
  }

  /** Seconds since local midnight of an instant in a zone `offset` seconds from UTC. */
  function LocalTimeOfDay(instant: int, offset: int): (r: int)
    ensures 0 <= r < SecondsPerDay
  {
    (instant + offset) % SecondsPerDay
  }

  /** Local dates never go backwards when instants move forward. */
  lemma LocalDateMonotone(a: int, b: int, offset: int)
    requires a <= b
    ensures LocalDate(a, offset) <= LocalDate(b, offset)
  {
  }

  /**
   * `datetime.now(tz)`: a whole epoch second and whether the microseconds
   * past it are positive. Parsed due dates are whole seconds, so that flag is
   * all of the fraction a comparison with them can see.
   */
  datatype Clock = Clock(seconds: int, pastSecond: bool)

  const MicrosPerSecond: int := 1000000

  /** The clock a whole second and `micros` microseconds show. */
  function ClockAt(seconds: int, micros: int): (c: Clock)
    requires 0 <= micros < MicrosPerSecond
    ensures c.seconds == seconds && (c.pastSecond <==> micros > 0)
  {
    Clock(seconds, micros > 0)
  }

  /** `t < now` for a whole-second instant `t`. */
  predicate BeforeNow(t: int, now: Clock) {
    t < now.seconds || (now.pastSecond && t == now.seconds)
  }

  /** `BeforeNow` is `<` on the full microsecond reading of the clock. */
  lemma BeforeNowMicros(t: int, seconds: int, micros: int)
    requires 0 <= micros < MicrosPerSecond
    ensures BeforeNow(t, ClockAt(seconds, micros))
            <==> t * MicrosPerSecond < seconds * MicrosPerSecond + micros
  {
    if t < seconds {
      assert t * MicrosPerSecond + MicrosPerSecond <= seconds * MicrosPerSecond;
    } else if t > seconds {
      assert seconds * MicrosPerSecond + MicrosPerSecond <= t * MicrosPerSecond;
    }
  }

  /** `t <= now + d` for whole seconds `t` and `d` does not depend on the fraction of now. */
  lemma WithinMicros(t: int, d: int, seconds: int, micros: int)
    requires 0 <= micros < MicrosPerSecond
    ensures t <= seconds + d <==> t * MicrosPerSecond <= (seconds + d) * MicrosPerSecond + micros
  {
    if t > seconds + d {
      assert (seconds + d) * MicrosPerSecond + MicrosPerSecond <= t * MicrosPerSecond;
    }
  }

  /** An instant in the second of now is before now exactly when now is past that second. */
  lemma SameSecond(now: Clock)
    ensures BeforeNow(now.seconds, now) <==> now.pastSecond
    ensures !BeforeNow(now.seconds + 1, now) && BeforeNow(now.seconds - 1, now)
  {
  }

  /** Strict lexicographic order of the fields: what comparing two aware datetimes means. */
  predicate Before(a: DateTime, b: DateTime) {
    || a.year < b.year
    || (a.year == b.year && a.month < b.month)
    || (a.year == b.year && a.month == b.month && a.day < b.day)
    || (a.year == b.year && a.month == b.month && a.day == b.day && SecondOfDay(a) < SecondOfDay(b))
  }

  lemma YearLength(y: int)
    requires y >= 1
    ensures DaysBeforeYear(y + 1) == DaysBeforeYear(y) + DaysInYear(y)
  {
    LeapDivisors(y);
  }

  /** Each of the three counts in `DaysBeforeYear` goes up by one exactly at a multiple. */
  lemma LeapDivisors(y: int)
    ensures y / 4 - (y - 1) / 4 == if y % 4 == 0 then 1 else 0
    ensures y / 100 - (y - 1) / 100 == if y % 100 == 0 then 1 else 0
    ensures y / 400 - (y - 1) / 400 == if y % 400 == 0 then 1 else 0
    ensures y % 400 == 0 ==> y % 100 == 0
    ensures y % 100 == 0 ==> y % 4 == 0
  {
    Step4(y);
    Step100(y);
    Step400(y);
    Multiples(y);
  }

  lemma Step4(y: int)
    ensures y / 4 - (y - 1) / 4 == if y % 4 == 0 then 1 else 0
  {
  }

  lemma Step100(y: int)
    ensures y / 100 - (y - 1) / 100 == if y % 100 == 0 then 1 else 0
  {
  }

  lemma Step400(y: int)
    ensures y / 400 - (y - 1) / 400 == if y % 400 == 0 then 1 else 0
  {
  }

  lemma Multiples(y: int)
    ensures y % 400 == 0 ==> y % 100 == 0
    ensures y % 100 == 0 ==> y % 4 == 0
  {
  }

  lemma {:induction false} YearsMonotone(a: int, b: int)
    requires 1 <= a <= b
    ensures DaysBeforeYear(a) + 365 * (b - a) <= DaysBeforeYear(b)
    decreases b - a
  {
    if a < b {
      YearsMonotone(a, b - 1);
      YearLength(b - 1);
    }
  }

  lemma DayOfYearBound(t: DateTime)
    requires Valid(t)
    ensures 0 <= DaysBeforeMonth(t.year, t.month) + t.day - 1 < DaysInYear(t.year)
  {
  }

  lemma MonthsMonotone(y: int, m1: int, m2: int)
    requires 1 <= m1 < m2 <= 12
    ensures DaysBeforeMonth(y, m1) + DaysInMonth(y, m1) <= DaysBeforeMonth(y, m2)
  {
  }

  /**
   * The instant of a date-time respects the order of its fields: comparing
   * epochs is comparing the date-times, so the model may compare instants
   * where the scripts compare `datetime` objects.
   */
  lemma EpochOrder(a: DateTime, b: DateTime)
    requires Valid(a) && Valid(b)
    ensures Before(a, b) <==> Epoch(a) < Epoch(b)
  {
    if Before(a, b) {
      EpochStrict(a, b);
    } else if Before(b, a) {
      EpochStrict(b, a);
    } else {
      assert a.year == b.year && a.month == b.month && a.day == b.day;
    }
  }

  lemma EpochStrict(a: DateTime, b: DateTime)
    requires Valid(a) && Valid(b) && Before(a, b)
    ensures Epoch(a) < Epoch(b)
  {
    if a.year < b.year {
      EarlierYear(a, b);
    } else if a.month < b.month {
      MonthsMonotone(a.year, a.month, b.month);
      assert DayNumber(a) < DayNumber(b);
    }
  }

  lemma EarlierYear(a: DateTime, b: DateTime)
    requires Valid(a) && Valid(b) && a.year < b.year
    ensures DayNumber(a) < DayNumber(b)
  {
    DayOfYearBound(a);
    YearLength(a.year);
    YearsMonotone(a.year + 1, b.year);
  }

  /** Two different valid date-times never denote the same instant. */
  lemma EpochInjective(a: DateTime, b: DateTime)
    requires Valid(a) && Valid(b) && a != b
    ensures Epoch(a) != Epoch(b)
  {
    EpochOrder(a, b);
    EpochOrder(b, a);
  }

  /** 1970-01-01T00:00:00Z is instant 0. */
  lemma EpochOrigin()
    ensures Epoch(DateTime(1970, 1, 1, 0, 0, 0)) == 0
  {
    var t := DateTime(1970, 1, 1, 0, 0, 0);
    assert Valid(t);
    assert DaysBeforeYear(1970) == 365 * 1969 + 492 - 19 + 4;
    assert DayNumber(t) == 0;
  }

  /**
   * `2026-01-25T10:00:00Z` seen from a zone eight hours behind UTC is
   * 02:00 local on 2026-01-25.
   */
  lemma PacificExample()
    ensures ParseInstant("2026-01-25T10:00:00Z").Some?
    ensures var e := ParseInstant("2026-01-25T10:00:00Z").value;
      && LocalDate(e, -8 * 3600) == DayNumber(DateTime(2026, 1, 25, 0, 0, 0))
      && LocalTimeOfDay(e, -8 * 3600) == 2 * 3600
  {
    var t := DateTime(2026, 1, 25, 10, 0, 0);
    PacificText(t);
    ParseFormat(t);
    EpochLocal(t, -8 * 3600);
  }

  lemma PacificText(t: DateTime)
    requires t == DateTime(2026, 1, 25, 10, 0, 0)
    ensures Format(t) == "2026-01-25T10:00:00Z"
  {
    PacificYear();
    PacificMonthDay();
    PacificTime();
  }

  lemma PacificYear()
    ensures Pad(2026, 4) == "2026"
  {
    assert Pad(202, 3) == "202";
  }

  lemma PacificMonthDay()
    ensures Pad(1, 2) == "01" && Pad(25, 2) == "25"
  {
  }

  lemma PacificTime()
    ensures Pad(10, 2) == "10" && Pad(0, 2) == "00"
  {
  }

  /** Seen from a zone whose offset keeps the time of day on the same date, the date is the UTC date. */
  lemma EpochLocal(t: DateTime, offset: int)
    requires Valid(t)
    requires 0 <= SecondOfDay(t) + offset < SecondsPerDay
    ensures LocalDate(Epoch(t), offset) == DayNumber(t)
    ensures LocalTimeOfDay(Epoch(t), offset) == SecondOfDay(t) + offset
  {
    var x := SecondOfDay(t) + offset;
    assert Epoch(t) + offset == DayNumber(t) * SecondsPerDay + x;
  }
}
