/** types/time_only.go: a time.Time that travels as "HH:MM" in JSON and SQL. */
module TimeOnly {
  import opened Wrappers
  import opened Calendar
  import opened Driver

  /** What MarshalJSON writes: json.Marshal(nil) for the zero time, else the JSON string "HH:MM". */
  function Encode(t: Time): (r: string)
    ensures r == "null" <==> IsZero(t)
    ensures Valid(t) && !IsZero(t) ==> |r| == 7 && ParseClock(r[1..|r| - 1]) == Ok(ClockOf(t))
  {
    if IsZero(t) then "null"
    else
      var q := "\"" + FormatClock(t) + "\"";
      assert q[0] == '"';
      assert Valid(t) ==> |q| == 7 && ParseClock(q[1..|q| - 1]) == Ok(ClockOf(t)) by {
        if Valid(t) {
          ClockRoundTrip(t);
          TwoDigits(t.hour);
          TwoDigits(t.minute);
          assert q[1..|q| - 1] == FormatClock(t);
        }
      }
      q
  }

  /**
   * UnmarshalJSON's stripping of the first and last byte: the slice bounds of
   * str[1:len(str)-1] fail for fewer than two bytes.
   */
  function Unquote(data: string): (r: Completion<string>)
    ensures r.Returned? <==> |data| >= 2
    ensures r.Returned? ==> [data[0]] + r.value + [data[|data| - 1]] == data
  {
    if |data| < 2 then Panicked("slice bounds out of range")
    else
      assert data == [data[0]] + data[1..|data| - 1] + [data[|data| - 1]];
      Returned(data[1..|data| - 1])
  }

  /** As written, the `null` MarshalJSON writes for the zero value is read as the clock text "ul" and rejected. */
  lemma ZeroDoesNotRoundTrip(t: Time)
    requires IsZero(t)
    ensures Unquote(Encode(t)) == Returned("ul") && ParseClock("ul").Err?
  {
    assert "null"[1..3] == "ul";
  }

  /** UnmarshalJSON with `null` read as "no value": the stored time after decoding, and the outcome. */
  function DecodeNullSafe(current: Time, data: Option<string>): (r: Completion<(Time, Outcome)>)
    ensures data.None? || data == Some("null") ==> r == Returned((current, Pass))
  {
    if data.None? || data.value == "null" then Returned((current, Pass))
    else match Unquote(data.value)
      case Panicked(why) => Panicked(why)
      case Returned(str) =>
        match ParseClock(str)
        case Ok(p) => Returned((p, Pass))
        case Err(e) => Returned((current, Fail(e)))
  }

  /** With the correction every valid value survives a JSON round trip into a fresh (zero) TimeOnly. */
  lemma NullSafeRoundTrip(t: Time)
    requires Valid(t)
    ensures DecodeNullSafe(ZeroTime, Some(Encode(t))) == Returned((if IsZero(t) then ZeroTime else ClockOf(t), Pass))
  {
  }

  class TimeOnly {
    var time: Time

    constructor (t: Time)
      ensures time == t
    {
      time := t;
    }

    /** MarshalJSON */
    function MarshalJSON(): (r: string)
      reads this
      ensures r == "null" <==> IsZero(time)
      ensures !IsZero(time) ==> r == "\"" + FormatClock(time) + "\""
    {
      Encode(time)
    }

    /** Value: "HH:MM" always, "00:00" for the zero time in UTC. */
    function Value(): (r: string)
      reads this
      ensures Valid(time) ==> ParseClock(r) == Ok(ClockOf(time))
      ensures Valid(time) && IsZero(time) && time.offset == 0 ==> r == "00:00"
    {
      assert Valid(time) ==> ParseClock(FormatClock(time)) == Ok(ClockOf(time)) by {
        if Valid(time) { ClockRoundTrip(time); }
      }
      assert Valid(time) && IsZero(time) && time.offset == 0 ==> FormatClock(time) == "00:00" by {
        if Valid(time) && IsZero(time) && time.offset == 0 { ZeroFormats(time); }
      }
      FormatClock(time)
    }

    /**
     * UnmarshalJSON: nil is a no-op; otherwise the outer two bytes are dropped
     * unchecked (panicking below two bytes) and the rest must read as "15:04",
     * else the time is kept.
     */
    method UnmarshalJSON(data: Option<string>) returns (c: Completion<Outcome>)
      modifies this
      ensures data.None? ==> c == Returned(Pass) && time == old(time)
      ensures data.Some? && |data.value| < 2 ==> c.Panicked? && time == old(time)
      ensures data.Some? && |data.value| >= 2 ==>
        var parsed := ParseClock(data.value[1..|data.value| - 1]);
        (parsed.Ok? ==> c == Returned(Pass) && time == parsed.value)
        && (parsed.Err? ==> c == Returned(Fail(parsed.error)) && time == old(time))
    {
      if data.None? {
        return Returned(Pass);
      }
      var str := Unquote(data.value);
      if str.Panicked? {
        return Panicked(str.reason);
      }
      var parsed := ParseClock(str.value);
      if parsed.Err? {
        return Returned(Fail(parsed.error));
      }
      time := parsed.value;
      return Returned(Pass);
    }

    /** Scan: a time is stored as is, a string is parsed as "15:04", any other value is refused. */
    method Scan(value: SqlValue) returns (err: Outcome)
      modifies this
      ensures value.SqlTime? ==> err == Pass && time == value.time
      ensures value.SqlText? && ParseClock(value.text).Ok? ==> err == Pass && time == ParseClock(value.text).value
      ensures value.SqlText? && ParseClock(value.text).Err? ==>
        err == Fail(ParseClock(value.text).error) && time == old(time)
      ensures value.SqlOther? ==> err == Fail(CannotConvert("TimeOnly")) && time == old(time)
    {
      match value
      case SqlTime(t) =>
        time := t;
        return Pass;
      case SqlText(s) =>
        var parsed := ParseClock(s);
        if parsed.Err? {
          return Fail(parsed.error);
        }
        time := parsed.value;
        return Pass;
      case SqlOther(_) =>
        return Fail(CannotConvert("TimeOnly"));
    }
  }
}
