/** Decimal digits as Go's strconv and time packages read and write them (ASCII only). */
module Decimal {

  predicate IsDigit(c: char) { '0' <= c <= '9' }

  predicate AllDigits(s: string) { forall i :: 0 <= i < |s| ==> IsDigit(s[i]) }

  function DigitVal(c: char): (r: nat)
    requires IsDigit(c)
    ensures r < 10
  {
    c as int - '0' as int
  }

  function DigitChar(d: nat): (c: char)
    requires d < 10
    ensures IsDigit(c) && DigitVal(c) == d
  {
    ('0' as int + d) as char
  }

  function Pow10(k: nat): (r: nat)
    ensures r >= 1
  {
    if k == 0 then 1 else 10 * Pow10(k - 1)
  }

  /** The value of a digit string read left to right from an accumulator `n`, as a scan loop computes it. */
  function AccFrom(n: nat, s: string): nat
    requires AllDigits(s)
    decreases s
  {
    if s == [] then n else AccFrom(n * 10 + DigitVal(s[0]), s[1..])
  }

  function Value(s: string): nat
    requires AllDigits(s)
  {
    AccFrom(0, s)
  }

  /** The shortest decimal rendering of `n`, most significant digit first. */
  function Digits(n: nat): (s: string)
    ensures |s| >= 1 && AllDigits(s)
  {
    if n < 10 then [DigitChar(n)] else Digits(n / 10) + [DigitChar(n % 10)]
  }

  /** Reading one more digit multiplies by ten and adds it. */
  lemma {:induction false} AccSnoc(n: nat, s: string, c: char)
    requires AllDigits(s) && IsDigit(c)
    ensures AllDigits(s + [c]) && AccFrom(n, s + [c]) == AccFrom(n, s) * 10 + DigitVal(c)
    decreases s
  {
    assert AllDigits(s + [c]) by {
      forall i | 0 <= i < |s + [c]| ensures IsDigit((s + [c])[i]) {
        if i < |s| { assert (s + [c])[i] == s[i]; }
      }
    }
    if s != [] {
      assert (s + [c])[1..] == s[1..] + [c];
      AccSnoc(n * 10 + DigitVal(s[0]), s[1..], c);
    }
  }

  /** The accumulator is scaled by ten per digit and the digits add less than that scale. */
  lemma {:induction false} AccBounds(n: nat, s: string)
    requires AllDigits(s)
    ensures n * Pow10(|s|) <= AccFrom(n, s) < (n + 1) * Pow10(|s|)
    decreases s
  {
    if s != [] {
      var d := DigitVal(s[0]);
      var m := n * 10 + d;
      AccBounds(m, s[1..]);
      ScaleStep(n, d, Pow10(|s| - 1), AccFrom(m, s[1..]));
    }
  }

  lemma ScaleStep(n: nat, d: nat, p: nat, a: nat)
    requires d < 10 && (n * 10 + d) * p <= a < (n * 10 + d + 1) * p
    ensures n * (10 * p) <= a < (n + 1) * (10 * p)
  {
    MulMono(n * 10, n * 10 + d, p);
    MulMono(n * 10 + d + 1, n * 10 + 10, p);
  }

  lemma MulMono(a: nat, b: nat, c: nat)
    requires a <= b
    ensures a * c <= b * c
  {
  }

  /** Reading back a rendering gives the number. */
  lemma {:induction false} ValueDigits(n: nat)
    ensures Value(Digits(n)) == n
  {
    if n >= 10 {
      var c := DigitChar(n % 10);
      ValueDigits(n / 10);
      assert Digits(n) == Digits(n / 10) + [c];
      AccSnoc(0, Digits(n / 10), c);
      assert Value(Digits(n)) == AccFrom(0, Digits(n / 10) + [c]) == (n / 10) * 10 + n % 10;
    }
  }

  /** A rendering never starts with a zero, except the rendering of zero itself. */
  lemma {:induction false} DigitsLeading(n: nat)
    ensures Digits(n)[0] == '0' <==> n == 0
  {
    if n >= 10 {
      DigitsLeading(n / 10);
      assert Digits(n)[0] == Digits(n / 10)[0];
    }
  }

  /** The rendering of `n` has exactly `k` digits when 10^(k-1) <= n < 10^k. */
  lemma {:induction false} DigitsLength(n: nat, k: nat)
    requires k >= 1 && n < Pow10(k) && (k == 1 || Pow10(k - 1) <= n)
    ensures |Digits(n)| == k
  {
    if n >= 10 {
      assert k >= 2;
      assert Pow10(k) == 10 * Pow10(k - 1);
      if k > 2 {
        assert Pow10(k - 1) == 10 * Pow10(k - 2);
        assert Pow10(k - 2) <= n / 10;
      }
      DigitsLength(n / 10, k - 1);
    }
  }
}
