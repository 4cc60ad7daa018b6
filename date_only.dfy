/** types/date_only.go: a time.Time that travels as "YYYY-MM-DD" in JSON and SQL. */
module DateOnly {
  import opened Wrappers
  import opened Calendar
  import opened Driver

  /** NewDateOnly: the same date and location, at midnight. */
  function Midnight(t: Time): (r: Time)
    ensures r.year == t.year && r.month == t.month && r.day == t.day && r.offset == t.offset
    ensures SecondOfDay(r) == 0 && r.nanosecond == 0
    ensures Valid(t) ==> Valid(r)
  {
    Time(t.year, t.month, t.day, 0, 0, 0, 0, t.offset)
  }

  /** Moving to midnight keeps the formatted date and is idempotent. */
  lemma MidnightKeepsDate(t: Time)
    ensures FormatDate(Midnight(t)) == FormatDate(t)
    ensures Midnight(Midnight(t)) == Midnight(t)
  {
  }

  /** What MarshalJSON writes for a time: `null` for the zero time, else the quoted date. */
  function Encode(t: Time): (r: string)
    ensures r == "null" <==> IsZero(t)
    ensures Valid(t) && !IsZero(t) && 0 <= t.year <= 9999 ==> ParseQuotedDate(r) == Ok(DateOf(t))
  {
    if IsZero(t) then "null"
    else
      var q := "\"" + FormatDate(t) + "\"";
      assert q[0] == '"';
      assert Valid(t) && 0 <= t.year <= 9999 ==> ParseQuotedDate(q) == Ok(DateOf(t)) by {
        if Valid(t) && 0 <= t.year <= 9999 { QuotedDateRoundTrip(t); }
      }
      q
  }

  /** The text `null` is not a quoted date, so UnmarshalJSON rejects it. */
  lemma NullRejected()
    ensures ParseQuotedDate("null") == Err(TimeParse(QuotedDateLayout, "null"))
  {
  }

  /** As written, the JSON text MarshalJSON produces for the zero value is rejected by UnmarshalJSON. */
  lemma ZeroDoesNotRoundTrip(t: Time)
    requires IsZero(t)
    ensures ParseQuotedDate(Encode(t)).Err?
  {
    NullRejected();
  }

  /**
   * UnmarshalJSON with `null` read as "no value", the reading the nil check
   * evidently aims at: the stored time after decoding, and the error.
   */
  function DecodeNullSafe(current: Time, b: Option<string>): (r: (Time, Outcome))
    ensures b.None? || b == Some("null") ==> r == (current, Pass)
  {
    if b.None? || b.value == "null" then (current, Pass)
    else match ParseQuotedDate(b.value)
      case Ok(p) => (p, Pass)
      case Err(e) => (current, Fail(e))
  }

  /** With the correction every value survives a JSON round trip into a fresh (zero) DateOnly. */
  lemma NullSafeRoundTrip(t: Time)
    requires Valid(t) && 0 <= t.year <= 9999
    ensures DecodeNullSafe(ZeroTime, Some(Encode(t))) == (if IsZero(t) then ZeroTime else DateOf(t), Pass)
  {
  }

  class DateOnly {
    var time: Time

    constructor (t: Time)
      ensures time == t
    {
      time := t;
    }

    /** MarshalJSON */
    function MarshalJSON(): (r: string)
      reads this
      ensures r == "null" <==> IsZero(time)
      ensures !IsZero(time) ==> r == "\"" + FormatDate(time) + "\""
    {
      Encode(time)
    }

    /** Value: the unquoted date, also for the zero time. */
    function Value(): (r: string)
      reads this
      ensures Valid(time) && 0 <= time.year <= 9999 ==> ParseDate(r) == Ok(DateOf(time))
      ensures IsZero(time) && time.offset == 0 ==> r == "0001-01-01"
    {
      assert Valid(time) && 0 <= time.year <= 9999 ==> ParseDate(FormatDate(time)) == Ok(DateOf(time)) by {
        if Valid(time) && 0 <= time.year <= 9999 { DateRoundTrip(time); }
      }
      assert IsZero(time) && time.offset == 0 ==> FormatDate(time) == "0001-01-01" by {
        if IsZero(time) && time.offset == 0 { ZeroFormats(time); }
      }
      FormatDate(time)
    }

    /** UnmarshalJSON: nil is a no-op; anything else must be a quoted date, else the time is kept. */
    method UnmarshalJSON(b: Option<string>) returns (err: Outcome)
      modifies this
      ensures b.None? ==> err == Pass && time == old(time)
      ensures b.Some? && ParseQuotedDate(b.value).Ok? ==> err == Pass && time == ParseQuotedDate(b.value).value
      ensures b.Some? && ParseQuotedDate(b.value).Err? ==>
        err == Fail(ParseQuotedDate(b.value).error) && time == old(time)
    {
      if b.None? {
        return Pass;
      }
      var parsed := ParseQuotedDate(b.value);
      if parsed.Err? {
        return Fail(parsed.error);
      }
      time := parsed.value;
      return Pass;
    }

    /** Scan: a time is stored as is, a string is parsed as "2006-01-02", any other value is refused. */
    method Scan(value: SqlValue) returns (err: Outcome)
      modifies this
      ensures value.SqlTime? ==> err == Pass && time == value.time
      ensures value.SqlText? && ParseDate(value.text).Ok? ==> err == Pass && time == ParseDate(value.text).value
      ensures value.SqlText? && ParseDate(value.text).Err? ==>
        err == Fail(ParseDate(value.text).error) && time == old(time)
      ensures value.SqlOther? ==> err == Fail(CannotConvert("CustomDate")) && time == old(time)
    {
      match value
      case SqlTime(t) =>
        time := t;
        return Pass;
      case SqlText(s) =>
        var parsed := ParseDate(s);
        if parsed.Err? {
          return Fail(parsed.error);
        }
        time := parsed.value;
        return Pass;
      case SqlOther(_) =>
        return Fail(CannotConvert("CustomDate"));
    }
  }
}
