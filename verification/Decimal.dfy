/** Decimal text of unsigned 64-bit numbers. */
module Decimal {
  import opened Options

  const MAX_UINT64: nat := 0xFFFF_FFFF_FFFF_FFFF

  predicate IsDigit(c: char) {
    '0' <= c <= '9'
  }

  predicate AllDigits(s: string) {
    forall c <- s :: IsDigit(c)
  }

  function DigitOf(n: nat): (c: char)
    requires n < 10
    ensures IsDigit(c) && DigitValue(c) == n
  {
    '0' + n as char
  }

  function DigitValue(c: char): (n: nat)
    requires IsDigit(c)
    ensures n < 10 && c as int == '0' as int + n && (c != '0' ==> n > 0)
  {
    (c - '0') as nat
  }

  function Format(n: nat): string {
    if n < 10 then [DigitOf(n)] else Format(n / 10) + [DigitOf(n % 10)]
  }

  function Value(s: string): nat
    requires AllDigits(s)
  {
    if s == "" then 0 else Value(s[..|s| - 1]) * 10 + DigitValue(s[|s| - 1])
  }

  function ParseUint(s: string): Option<nat> {
    if s == "" || !AllDigits(s) || Value(s) > MAX_UINT64 then None else Some(Value(s))
  }

  predicate NoLeadingZero(s: string) {
    s != "" && (|s| > 1 ==> s[0] != '0')
  }

  lemma {:induction false} FormatIsCanonical(n: nat)
    ensures AllDigits(Format(n)) && NoLeadingZero(Format(n)) && Value(Format(n)) == n
    ensures n > 0 ==> Format(n)[0] != '0'
  {
    if n >= 10 {
      FormatIsCanonical(n / 10);
      var s := Format(n);
      assert s[..|s| - 1] == Format(n / 10);
      assert s[0] == Format(n / 10)[0];
    }
  }

  lemma {:induction false} CanonicalIsFormat(s: string)
    requires AllDigits(s) && NoLeadingZero(s)
    ensures Format(Value(s)) == s
    ensures |s| > 1 ==> Value(s) >= 10
  {
    if |s| == 1 {
      assert Value(s[..0]) == 0;
      assert s == [DigitOf(DigitValue(s[0]))];
    } else {
      var rest, last := s[..|s| - 1], s[|s| - 1];
      assert rest[0] == s[0];
      CanonicalIsFormat(rest);
      if |rest| == 1 {
        assert Value(rest[..0]) == 0;
      }
      assert Value(rest) >= 1;
      assert Value(s) / 10 == Value(rest) && Value(s) % 10 == DigitValue(last);
      assert DigitOf(DigitValue(last)) == last;
      assert s == rest + [last];
    }
  }

  lemma {:induction false} FormatWidth(n: nat, digits: nat, bound: nat)
    requires digits >= 1 && bound == Power(digits) && n < bound
    ensures |Format(n)| <= digits
  {
    assert Power(digits) == 10 * Power(digits - 1) && Power(0) == 1;
    if n >= 10 {
      FormatWidth(n / 10, digits - 1, Power(digits - 1));
    }
  }

  function Power(k: nat): nat {
    if k == 0 then 1 else 10 * Power(k - 1)
  }

  /** Every 64-bit number has at most twenty digits. */
  lemma Uint64Width(n: nat)
    requires n <= MAX_UINT64
    ensures |Format(n)| <= 20
  {
    PowerFive();
    FormatWidth(n, 20, Power(20));
  }

  lemma PowerFive()
    ensures Power(20) == 100_000_000_000_000_000_000
  {
    assert Power(4) == 10_000;
    assert Power(8) == 100_000_000;
    assert Power(12) == 1_000_000_000_000;
    assert Power(16) == 10_000_000_000_000_000;
  }

  /** Printing a 64-bit number and parsing it gives it back. */
  lemma ParseFormat(n: nat)
    requires n <= MAX_UINT64
    ensures ParseUint(Format(n)) == Some(n)
  {
    FormatIsCanonical(n);
  }
}
