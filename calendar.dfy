/**
 * The part of Go's time.Time the DateOnly and TimeOnly codecs observe: civil
 * fields in a fixed-offset location, IsZero, and Format/Parse for the two
 * layouts "2006-01-02" and "15:04".
 */
module Calendar {
  import opened Wrappers
  import opened Decimal

  const DateLayout: string := "2006-01-02"
  const QuotedDateLayout: string := "\"2006-01-02\""
  const ClockLayout: string := "15:04"
  const SecondsPerDay: int := 86400

  /** A time.Time seen in its own location; `offset` is seconds east of UTC. */
  datatype Time = Time(year: int, month: int, day: int, hour: int, minute: int, second: int,
                       nanosecond: int, offset: int)

  predicate IsLeap(y: int) { y % 4 == 0 && (y % 100 != 0 || y % 400 == 0) }

  function DaysIn(m: int, y: int): (r: int)
    requires 1 <= m <= 12
    ensures 28 <= r <= 31
    ensures r == 29 <==> m == 2 && IsLeap(y)
  {
    if m == 2 then (if IsLeap(y) then 29 else 28)
    else if m == 4 || m == 6 || m == 9 || m == 11 then 30
    else 31
  }

  /** The fields of a normalised time.Time (any year) in a location less than a day from UTC. */
  predicate Valid(t: Time)
  {
    1 <= t.month <= 12 && 1 <= t.day <= DaysIn(t.month, t.year)
    && 0 <= t.hour < 24 && 0 <= t.minute < 60 && 0 <= t.second < 60
    && 0 <= t.nanosecond < 1_000_000_000
    && -SecondsPerDay < t.offset < SecondsPerDay
  }

  function SecondOfDay(t: Time): int { t.hour * 3600 + t.minute * 60 + t.second }

  /** The zero time.Time: January 1 of year 1, 00:00:00 UTC. */
  const ZeroTime: Time := Time(1, 1, 1, 0, 0, 0, 0, 0)

  /**
   * time.Time.IsZero: the instant is January 1 of year 1, 00:00:00 UTC. East of
   * UTC that instant reads as the same day `offset` seconds after midnight; west
   * of UTC it reads as December 31 of year 0.
   */
  predicate IsZero(t: Time)
  {
    t.nanosecond == 0 &&
    if t.offset >= 0 then t.year == 1 && t.month == 1 && t.day == 1 && SecondOfDay(t) == t.offset
    else t.year == 0 && t.month == 12 && t.day == 31 && SecondOfDay(t) == SecondsPerDay + t.offset
  }

  /** In UTC only the zero value itself is zero. */
  lemma ZeroInUtc(t: Time)
    requires Valid(t) && t.offset == 0
    ensures IsZero(t) <==> t == ZeroTime
  {
  }

  /** The zero time in UTC formats as "0001-01-01" and, when valid, as "00:00". */
  lemma ZeroFormats(t: Time)
    requires IsZero(t) && t.offset == 0
    ensures FormatDate(t) == "0001-01-01"
    ensures Valid(t) ==> FormatClock(t) == "00:00"
  {
    assert AppendInt(1, 4) == "0001";
    assert AppendInt(1, 2) == "01";
    assert AppendInt(0, 2) == "00";
  }

  /** A time whose date is a parse result of "15:04" (year 0, January 1, UTC). */
  predicate IsClockOnly(t: Time)
  {
    t.year == 0 && t.month == 1 && t.day == 1 && t.second == 0 && t.nanosecond == 0 && t.offset == 0
  }

  /** Such a time is never the zero time. */
  lemma ClockOnlyNotZero(t: Time)
    requires IsClockOnly(t)
    ensures !IsZero(t)
  {
  }

  function Zeros(k: int): (z: string)
    ensures |z| == if k > 0 then k else 0
    ensures forall i :: 0 <= i < |z| ==> z[i] == '0'
  {
    if k <= 0 then [] else ['0'] + Zeros(k - 1)
  }

  /** The digits of a non-negative value, zero-padded to `width` (time's appendInt). */
  function Pad(u: nat, width: nat): string
  {
    if width == 2 && u < 100 then [DigitChar(u / 10), DigitChar(u % 10)]
    else if width == 4 && u < 10000 then
      [DigitChar(u / 1000), DigitChar(u / 100 % 10), DigitChar(u / 10 % 10), DigitChar(u % 10)]
    else Zeros(width - |Digits(u)|) + Digits(u)
  }

  /** time's appendInt: a minus sign for negative values, then the padded magnitude. */
  function AppendInt(x: int, width: nat): string
  {
    if x < 0 then "-" + Pad(-x, width) else Pad(x, width)
  }

  /** t.Format("2006-01-02") */
  function FormatDate(t: Time): string
  {
    AppendInt(t.year, 4) + "-" + AppendInt(t.month, 2) + "-" + AppendInt(t.day, 2)
  }

  /** t.Format("15:04") */
  function FormatClock(t: Time): string
  {
    AppendInt(t.hour, 2) + ":" + AppendInt(t.minute, 2)
  }

  function Two(a: char, b: char): nat
    requires IsDigit(a) && IsDigit(b)
  {
    DigitVal(a) * 10 + DigitVal(b)
  }

  function Four(a: char, b: char, c: char, d: char): nat
    requires IsDigit(a) && IsDigit(b) && IsDigit(c) && IsDigit(d)
  {
    DigitVal(a) * 1000 + DigitVal(b) * 100 + DigitVal(c) * 10 + DigitVal(d)
  }

  /** Four digits, '-', two digits, '-', two digits: what "2006-01-02" reads before range checks. */
  predicate DateShape(s: string)
  {
    |s| == 10 && IsDigit(s[0]) && IsDigit(s[1]) && IsDigit(s[2]) && IsDigit(s[3]) && s[4] == '-'
    && IsDigit(s[5]) && IsDigit(s[6]) && s[7] == '-' && IsDigit(s[8]) && IsDigit(s[9])
  }

  /**
   * time.Parse("2006-01-02", value): exactly four year digits, a two-digit month
   * in 1..12 and a two-digit day that exists in that month and year; the result
   * is midnight UTC.
   */
  function ParseDate(value: string): (r: Result<Time>)
    ensures r.Ok? ==> Valid(r.value) && FormatDate(r.value) == value
    ensures r.Ok? ==> SecondOfDay(r.value) == 0 && r.value.nanosecond == 0 && r.value.offset == 0
    ensures r.Err? ==> r.error == TimeParse(DateLayout, value)
  {
    if !DateShape(value) then Err(TimeParse(DateLayout, value))
    else
      var y := Four(value[0], value[1], value[2], value[3]);
      var m := Two(value[5], value[6]);
      var d := Two(value[8], value[9]);
      if m < 1 || 12 < m || d < 1 || d > DaysIn(m, y) then Err(TimeParse(DateLayout, value))
      else
        PadFour(value[0], value[1], value[2], value[3]);
        PadTwo(value[5], value[6]);
        PadTwo(value[8], value[9]);
        assert value == value[..4] + "-" + value[5..7] + "-" + value[8..];
        Ok(Time(y, m, d, 0, 0, 0, 0, 0))
  }

  /** time.Parse("\"2006-01-02\"", value): the same date between two literal quotes. */
  function ParseQuotedDate(value: string): (r: Result<Time>)
    ensures r.Ok? ==> Valid(r.value) && "\"" + FormatDate(r.value) + "\"" == value
    ensures r.Err? ==> r.error == TimeParse(QuotedDateLayout, value)
  {
    if |value| >= 2 && value[0] == '"' && value[|value| - 1] == '"' then
      match ParseDate(value[1..|value| - 1])
      case Ok(t) =>
        assert value == "\"" + value[1..|value| - 1] + "\"";
        Ok(t)
      case Err(_) => Err(TimeParse(QuotedDateLayout, value))
    else Err(TimeParse(QuotedDateLayout, value))
  }

  /**
   * time.Parse("15:04", value): an hour of one or two digits below 24, ':', a
   * minute of exactly two digits below 60, nothing after; the date is January 1
   * of year 0, UTC.
   */
  function ParseClock(value: string): (r: Result<Time>)
    ensures r.Ok? ==> Valid(r.value) && IsClockOnly(r.value)
    ensures r.Ok? ==> (|value| == 5 ==> FormatClock(r.value) == value)
    ensures r.Ok? ==> (|value| == 4 ==> FormatClock(r.value) == "0" + value)
    ensures r.Ok? ==> |value| == 4 || |value| == 5
    ensures r.Err? ==> r.error == TimeParse(ClockLayout, value)
  {
    if |value| == 0 || !IsDigit(value[0]) then Err(TimeParse(ClockLayout, value))
    else
      var wide := |value| >= 2 && IsDigit(value[1]);
      var hour := if wide then Two(value[0], value[1]) else DigitVal(value[0]);
      var rest := if wide then value[2..] else value[1..];
      if 24 <= hour then Err(TimeParse(ClockLayout, value))
      else if |rest| != 3 || rest[0] != ':' || !IsDigit(rest[1]) || !IsDigit(rest[2]) then
        Err(TimeParse(ClockLayout, value))
      else
        var minute := Two(rest[1], rest[2]);
        if 60 <= minute then Err(TimeParse(ClockLayout, value))
        else
          PadTwo(rest[1], rest[2]);
          if wide then
            PadTwo(value[0], value[1]);
            assert value == value[..2] + ":" + rest[1..];
            Ok(Time(0, 1, 1, hour, minute, 0, 0, 0))
          else
            PadTwo('0', value[0]);
            assert "0" + value == ['0', value[0]] + ":" + rest[1..];
            Ok(Time(0, 1, 1, hour, minute, 0, 0, 0))
  }

  lemma DigitCharVal(c: char)
    requires IsDigit(c)
    ensures DigitChar(DigitVal(c)) == c
  {
  }

  lemma PadTwo(a: char, b: char)
    requires IsDigit(a) && IsDigit(b)
    ensures Pad(Two(a, b), 2) == [a, b] && AppendInt(Two(a, b), 2) == [a, b]
  {
    DigitCharVal(a);
    DigitCharVal(b);
  }

  lemma PadFour(a: char, b: char, c: char, d: char)
    requires IsDigit(a) && IsDigit(b) && IsDigit(c) && IsDigit(d)
    ensures AppendInt(Four(a, b, c, d), 4) == [a, b, c, d]
  {
    FourParts(DigitVal(a), DigitVal(b), DigitVal(c), DigitVal(d), Four(a, b, c, d));
    DigitCharVal(a);
    DigitCharVal(b);
    DigitCharVal(c);
    DigitCharVal(d);
  }

  lemma FourParts(a: nat, b: nat, c: nat, d: nat, u: nat)
    requires a < 10 && b < 10 && c < 10 && d < 10 && u == a * 1000 + b * 100 + c * 10 + d
    ensures u / 1000 == a && u / 100 % 10 == b && u / 10 % 10 == c && u % 10 == d
  {
    assert u % 10 == d && u / 10 == a * 100 + b * 10 + c;
    assert u / 100 == a * 10 + b;
  }

  /** The calendar date of a time, at midnight UTC: what formatting and parsing back keeps. */
  function DateOf(t: Time): Time { Time(t.year, t.month, t.day, 0, 0, 0, 0, 0) }

  /** The clock reading of a time on the date "15:04" parses to. */
  function ClockOf(t: Time): Time { Time(0, 1, 1, t.hour, t.minute, 0, 0, 0) }

  /** A valid date with a four-digit year formats to text that parses back to that date. */
  lemma DateRoundTrip(t: Time)
    requires Valid(t) && 0 <= t.year <= 9999
    ensures ParseDate(FormatDate(t)) == Ok(DateOf(t))
  {
    var s := FormatDate(t);
    FourDigits(t.year);
    TwoDigits(t.month);
    TwoDigits(t.day);
    assert s[..4] == AppendInt(t.year, 4);
    assert s[5..7] == AppendInt(t.month, 2);
    assert s[8..] == AppendInt(t.day, 2);
  }

  /** The quoted form round-trips the same way. */
  lemma QuotedDateRoundTrip(t: Time)
    requires Valid(t) && 0 <= t.year <= 9999
    ensures ParseQuotedDate("\"" + FormatDate(t) + "\"") == Ok(DateOf(t))
  {
    var q := "\"" + FormatDate(t) + "\"";
    assert q[1..|q| - 1] == FormatDate(t);
    DateRoundTrip(t);
  }

  /** A valid clock time formats to "HH:MM", which parses back to the same hour and minute. */
  lemma ClockRoundTrip(t: Time)
    requires Valid(t)
    ensures ParseClock(FormatClock(t)) == Ok(ClockOf(t))
  {
    var s := FormatClock(t);
    TwoDigits(t.hour);
    TwoDigits(t.minute);
    assert s[..2] == AppendInt(t.hour, 2);
    assert s[3..] == AppendInt(t.minute, 2);
    assert s[2..] == ":" + s[3..];
  }

  lemma TwoDigits(u: nat)
    requires u < 100
    ensures var s := AppendInt(u, 2);
      |s| == 2 && IsDigit(s[0]) && IsDigit(s[1]) && Two(s[0], s[1]) == u
  {
  }

  lemma FourDigits(u: nat)
    requires u < 10000
    ensures var s := AppendInt(u, 4);
      |s| == 4 && IsDigit(s[0]) && IsDigit(s[1]) && IsDigit(s[2]) && IsDigit(s[3])
      && Four(s[0], s[1], s[2], s[3]) == u
  {
    var s := AppendInt(u, 4);
    assert DigitVal(s[0]) == u / 1000 && DigitVal(s[1]) == u / 100 % 10;
    assert DigitVal(s[2]) == u / 10 % 10 && DigitVal(s[3]) == u % 10;
    Recompose(u);
  }

  lemma Recompose(u: nat)
    requires u < 10000
    ensures (u / 1000) * 1000 + (u / 100 % 10) * 100 + (u / 10 % 10) * 10 + u % 10 == u
  {
    var q1 := u / 10;
    var q2 := q1 / 10;
    assert u == 10 * q1 + u % 10;
    assert q1 == 10 * q2 + q1 % 10;
    assert q2 == 10 * (q2 / 10) + q2 % 10;
    assert u / 100 == q2 && u / 1000 == q2 / 10;
  }

  /** A year of five or more digits formats to text that "2006-01-02" cannot read back. */
  lemma WideYearUnreadable(t: Time)
    requires Valid(t) && t.year >= 10000
    ensures ParseDate(FormatDate(t)).Err?
  {
    var k: nat := 5;
    while Pow10(k) <= t.year
      invariant k >= 5 && Pow10(k - 1) <= t.year
      decreases t.year - Pow10(k - 1)
    {
      k := k + 1;
    }
    DigitsLength(t.year, k);
    assert |FormatDate(t)| > 10;
  }

  /** A negative year formats with a sign, which "2006-01-02" cannot read back. */
  lemma NegativeYearUnreadable(t: Time)
    requires Valid(t) && t.year < 0
    ensures ParseDate(FormatDate(t)).Err?
  {
    assert FormatDate(t)[0] == '-';
  }
}
