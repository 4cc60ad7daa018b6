/**
 * helper/type_conversion.go: text to bool, int64, date and clock time.
 * StringToInt64 delegates to strconv.ParseInt(s, 10, 64), modelled here
 * digit by digit with the same overflow tests on uint64.
 */
module TypeConversion {
  import opened Wrappers
  import opened Decimal
  import Calendar

  const MaxUint64: nat := 0xFFFF_FFFF_FFFF_FFFF
  const TwoTo64: nat := 0x1_0000_0000_0000_0000
  /** ParseUint's cutoff for base 10: the smallest n for which n*10 overflows. */
  const Uint64Cutoff: nat := MaxUint64 / 10 + 1
  /** ParseInt's cutoff for 64 bits: 1 << 63. */
  const Int64Cutoff: nat := 0x8000_0000_0000_0000

  predicate IsInt64(v: int) { -(Int64Cutoff as int) <= v < Int64Cutoff }

  /** strconv.FormatBool */
  function FormatBool(b: bool): string { if b then "true" else "false" }

  /** Exactly "true" and "false" are accepted, case and surrounding blanks included. */
  function StringToBool(input: string): (r: Result<bool>)
    ensures r.Ok? ==> FormatBool(r.value) == input
    ensures r.Err? <==> input != "true" && input != "false"
    ensures r.Err? ==> r.error == Message("invalid boolean value")
  {
    if input == "true" then Ok(true)
    else if input == "false" then Ok(false)
    else Err(Message("invalid boolean value"))
  }

  lemma BoolRoundTrip(b: bool)
    ensures StringToBool(FormatBool(b)) == Ok(b)
  {
  }

  /** How ParseUint ends: its value, and whether it stopped on a bad byte or an overflow. */
  datatype ScanStatus = Done | BadSyntax | OutOfRange
  datatype UintScan = UintScan(value: nat, status: ScanStatus)

  /**
   * The overflow test ParseUint applies before taking digit d into n: n*10 would
   * overflow, or the uint64 sum n*10+d wraps or exceeds the 64-bit maximum.
   */
  predicate Overflows(n: nat, d: nat)
  {
    n >= Uint64Cutoff || (n * 10 + d) % TwoTo64 < n * 10 || (n * 10 + d) % TwoTo64 > MaxUint64
  }

  /** Go's three tests say exactly that the exact value n*10+d leaves uint64. */
  lemma OverflowsIff(n: nat, d: nat)
    requires n <= MaxUint64 && d < 10
    ensures Overflows(n, d) <==> n * 10 + d > MaxUint64
  {
    if n < Uint64Cutoff {
      assert n * 10 + d <= MaxUint64 + 10;
      if n * 10 + d > MaxUint64 {
        assert (n * 10 + d) % TwoTo64 == n * 10 + d - TwoTo64;
      } else {
        assert (n * 10 + d) % TwoTo64 == n * 10 + d;
      }
    }
  }

  /** The digit loop of ParseUint, from accumulator n over the rest of the input. */
  function ScanUint(s: string, n: nat): (r: UintScan)
    requires n <= MaxUint64
    ensures r.value <= MaxUint64
    ensures r.status == OutOfRange ==> r.value == MaxUint64
    decreases s
  {
    if s == [] then UintScan(n, Done)
    else if !IsDigit(s[0]) then UintScan(0, BadSyntax)
    else if n >= Uint64Cutoff then UintScan(MaxUint64, OutOfRange)
    else
      var m := n * 10;
      var n1 := (m + DigitVal(s[0])) % TwoTo64;
      if n1 < m || n1 > MaxUint64 then UintScan(MaxUint64, OutOfRange)
      else ScanUint(s[1..], n1)
  }

  /** strconv.ParseUint(s, 10, 64) */
  function ParseUint(s: string): (r: UintScan)
    ensures r.value <= MaxUint64
    ensures r.status == OutOfRange ==> r.value == MaxUint64
  {
    if s == [] then UintScan(0, BadSyntax) else ScanUint(s, 0)
  }

  /** strconv.ParseInt(s, 10, 64); every error carries the whole input. */
  function ParseInt(s: string): (r: Result<int>)
    ensures r.Ok? ==> IsInt64(r.value)
    ensures r.Err? ==> r.error == NumSyntax(s) || r.error == NumRange(s)
  {
    if s == [] then Err(NumSyntax(s))
    else
      var neg := s[0] == '-';
      var body := if s[0] == '+' || s[0] == '-' then s[1..] else s;
      var scan := ParseUint(body);
      if scan.status == BadSyntax then Err(NumSyntax(s))
      else if !neg && scan.value >= Int64Cutoff then Err(NumRange(s))
      else if neg && scan.value > Int64Cutoff then Err(NumRange(s))
      else Ok(if neg then -(scan.value as int) else scan.value)
  }

  function StringToInt64(input: string): (r: Result<int>)
    ensures r.Ok? ==> IsInt64(r.value)
    ensures r.Err? ==> r.error == NumSyntax(input) || r.error == NumRange(input)
  {
    ParseInt(input)
  }

  /** The digits after an optional sign. */
  function Body(s: string): string
  {
    if |s| > 0 && (s[0] == '+' || s[0] == '-') then s[1..] else s
  }

  /** An optional sign followed by at least one decimal digit. */
  predicate WellFormed(s: string)
  {
    Body(s) != [] && AllDigits(Body(s))
  }

  /** The integer a well-formed string denotes, whatever its size. */
  function Meaning(s: string): int
    requires WellFormed(s)
  {
    if s[0] == '-' then -(Value(Body(s)) as int) else Value(Body(s))
  }

  /** Over digits alone, the scan yields the exact value or reports an overflow. */
  lemma {:induction false} ScanDigits(s: string, n: nat)
    requires n <= MaxUint64 && AllDigits(s)
    ensures ScanUint(s, n) ==
      if AccFrom(n, s) <= MaxUint64 then UintScan(AccFrom(n, s), Done) else UintScan(MaxUint64, OutOfRange)
    decreases s
  {
    if s != [] {
      var d := DigitVal(s[0]);
      var m := n * 10 + d;
      OverflowsIff(n, d);
      assert AccFrom(n, s) == AccFrom(m, s[1..]);
      if m <= MaxUint64 {
        assert m % TwoTo64 == m;
        ScanDigits(s[1..], m);
      } else {
        AccBounds(m, s[1..]);
        MulAtLeast(m, Pow10(|s| - 1));
      }
    }
  }

  lemma MulAtLeast(x: nat, p: nat)
    requires p >= 1
    ensures x * p >= x
  {
  }

  /** With room for every remaining digit, a non-digit is reported as bad syntax. */
  lemma {:induction false} ScanNonDigit(s: string, n: nat)
    requires n <= MaxUint64 && !AllDigits(s) && (n + 1) * Pow10(|s|) <= MaxUint64 + 1
    ensures ScanUint(s, n).status == BadSyntax
    decreases s
  {
    if IsDigit(s[0]) {
      var d := DigitVal(s[0]);
      var p := Pow10(|s| - 1);
      assert !AllDigits(s[1..]) by {
        var i :| 0 <= i < |s| && !IsDigit(s[i]);
        assert s[1..][i - 1] == s[i];
      }
      ScaleBack(n, d, p);
      OverflowsIff(n, d);
      assert (n * 10 + d) % TwoTo64 == n * 10 + d;
      ScanNonDigit(s[1..], n * 10 + d);
    }
  }

  lemma ScaleBack(n: nat, d: nat, p: nat)
    requires d < 10 && p >= 1 && (n + 1) * (10 * p) <= MaxUint64 + 1
    ensures (n * 10 + d + 1) * p <= MaxUint64 + 1 && n * 10 + d <= MaxUint64
  {
    MulMono(n * 10 + d + 1, n * 10 + 10, p);
    assert (n * 10 + 10) * p == (n + 1) * (10 * p);
    MulMono(1, p, n * 10 + d + 1);
  }

  /**
   * The decisive property of ParseInt: it accepts exactly the well-formed strings
   * whose value is an int64 and returns that value; a well-formed string out of
   * range is a range error.
   */
  lemma ParseIntSpec(s: string)
    ensures ParseInt(s).Ok? <==> WellFormed(s) && IsInt64(Meaning(s))
    ensures ParseInt(s).Ok? ==> ParseInt(s).value == Meaning(s)
    ensures WellFormed(s) && !IsInt64(Meaning(s)) ==> ParseInt(s) == Err(NumRange(s))
  {
    if s != [] {
      var body := Body(s);
      if body != [] && AllDigits(body) {
        ScanDigits(body, 0);
      } else if body != [] {
        ScanNotDone(body, 0);
      }
    }
  }

  /** A scan over a string with a non-digit never ends with Done. */
  lemma {:induction false} ScanNotDone(s: string, n: nat)
    requires n <= MaxUint64 && !AllDigits(s)
    ensures ScanUint(s, n).status != Done
    decreases s
  {
    if IsDigit(s[0]) {
      assert !AllDigits(s[1..]) by {
        var i :| 0 <= i < |s| && !IsDigit(s[i]);
        assert s[1..][i - 1] == s[i];
      }
      var d := DigitVal(s[0]);
      if n < Uint64Cutoff {
        var n1 := (n * 10 + d) % TwoTo64;
        if !(n1 < n * 10 || n1 > MaxUint64) { ScanNotDone(s[1..], n1); }
      }
    }
  }

  /** The empty string is bad syntax, and so is a sign alone. */
  lemma RejectsEmpty()
    ensures ParseInt("") == Err(NumSyntax(""))
    ensures ParseInt("+") == Err(NumSyntax("+")) && ParseInt("-") == Err(NumSyntax("-"))
  {
    assert "+"[1..] == "";
    assert "-"[1..] == "";
  }

  /** A malformed input of at most 19 bytes is a syntax error, never a range error. */
  lemma ShortMalformedIsSyntax(s: string)
    requires !WellFormed(s) && |s| <= 19
    ensures ParseInt(s) == Err(NumSyntax(s))
  {
    if s != [] {
      var body := Body(s);
      if body != [] {
        ShortNonDigitsBad(body);
      }
      BadBodyIsSyntax(s);
    }
  }

  lemma ShortNonDigitsBad(body: string)
    requires body != [] && !AllDigits(body) && |body| <= 19
    ensures ParseUint(body).status == BadSyntax
  {
    Pow10Of19();
    PowMono(|body|, 19);
    ScanNonDigit(body, 0);
  }

  lemma BadBodyIsSyntax(s: string)
    requires s != [] && ParseUint(Body(s)).status == BadSyntax
    ensures ParseInt(s) == Err(NumSyntax(s))
  {
  }

  lemma Pow10Of19()
    ensures Pow10(19) == 10_000_000_000_000_000_000
  {
    assert Pow10(2) == 100 && Pow10(3) == 1000;
    PowAdd(2, 2);
    PowAdd(4, 4);
    PowAdd(8, 8);
    PowAdd(16, 3);
  }

  lemma {:induction false} PowAdd(a: nat, b: nat)
    ensures Pow10(a + b) == Pow10(a) * Pow10(b)
    decreases b
  {
    if b > 0 { PowAdd(a, b - 1); }
  }

  lemma {:induction false} PowMono(j: nat, k: nat)
    requires j <= k
    ensures Pow10(j) <= Pow10(k)
    decreases k
  {
    if j < k { PowMono(j, k - 1); }
  }

  /** strconv.FormatInt(v, 10) */
  function FormatInt(v: int): (s: string)
    ensures WellFormed(s) && Meaning(s) == v
  {
    ValueDigits(if v < 0 then -v else v);
    if v < 0 then "-" + Digits(-v) else Digits(v)
  }

  /** Every int64 survives rendering and reading back. */
  lemma Int64RoundTrip(v: int)
    requires IsInt64(v)
    ensures StringToInt64(FormatInt(v)) == Ok(v)
  {
    ParseIntSpec(FormatInt(v));
  }

  /** The rendering of any integer outside the int64 range is a range error. */
  lemma RejectsOutOfRange(v: int)
    requires !IsInt64(v)
    ensures StringToInt64(FormatInt(v)) == Err(NumRange(FormatInt(v)))
  {
    ParseIntSpec(FormatInt(v));
  }

  /** time.Parse("2006-01-02", input) wrapped as a DateOnly's time. */
  function StringToDateOnly(input: string): (r: Result<Calendar.Time>)
    ensures r.Ok? ==> Calendar.Valid(r.value) && Calendar.FormatDate(r.value) == input
    ensures r.Err? ==> r.error == TimeParse(Calendar.DateLayout, input)
  {
    Calendar.ParseDate(input)
  }

  /** time.Parse("15:04", input) wrapped as a TimeOnly's time. */
  function StringToTimeOnly(input: string): (r: Result<Calendar.Time>)
    ensures r.Ok? ==> Calendar.Valid(r.value) && Calendar.IsClockOnly(r.value)
    ensures r.Ok? ==> (|input| == 5 ==> Calendar.FormatClock(r.value) == input)
    ensures r.Ok? ==> (|input| == 4 ==> Calendar.FormatClock(r.value) == "0" + input)
    ensures r.Ok? ==> |input| == 4 || |input| == 5
    ensures r.Err? ==> r.error == TimeParse(Calendar.ClockLayout, input)
  {
    Calendar.ParseClock(input)
  }
}
