/** Python's `str(n)` on an `int`, as the forum collector writes a topic id
    into a URL: an optional minus sign and the decimal digits, without
    leading zeros. */
module Decimal {
  function DigitChar(d: nat): (c: char)
    requires d < 10
    ensures '0' <= c <= '9'
  {
    "0123456789"[d]
  }

  function DigitValue(c: char): nat
    requires '0' <= c <= '9'
  {
    c as int - '0' as int
  }

  function Digits(n: nat): (s: string)
    ensures s != []
    ensures forall i | 0 <= i < |s| :: '0' <= s[i] <= '9'
    decreases n
  {
    if n < 10 then [DigitChar(n)] else Digits(n / 10) + [DigitChar(n % 10)]
  }

  function DecimalString(n: int): string {
    if n < 0 then "-" + Digits(-n) else Digits(n)
  }

  /** Reading decimal digits back, most significant first. */
  function ParseDigits(s: string): nat
    requires forall i | 0 <= i < |s| :: '0' <= s[i] <= '9'
    decreases |s|
  {
    if s == [] then 0 else 10 * ParseDigits(s[..|s| - 1]) + DigitValue(s[|s| - 1])
  }

  lemma {:induction false} DigitsRoundTrip(n: nat)
    ensures ParseDigits(Digits(n)) == n
    decreases n
  {
    var s := Digits(n);
    if n < 10 {
      assert s[..0] == [];
    } else {
      DigitsRoundTrip(n / 10);
      assert s[..|s| - 1] == Digits(n / 10);
    }
  }

  /** No digit string has a leading zero unless it is "0" itself. */
  lemma {:induction false} DigitsNoLeadingZero(n: nat)
    ensures Digits(n)[0] == '0' <==> n == 0
    decreases n
  {
    if n >= 10 {
      DigitsNoLeadingZero(n / 10);
    }
  }

  ghost predicate AllDigits(s: string) {
    forall i | 0 <= i < |s| :: '0' <= s[i] <= '9'
  }

  /** What `int(s)` accepts among the strings `str` writes. */
  ghost predicate IsDecimal(s: string) {
    s != [] && if s[0] == '-' then |s| > 1 && AllDigits(s[1..]) else AllDigits(s)
  }

  ghost function ParseDecimal(s: string): int
    requires IsDecimal(s)
  {
    if s[0] == '-' then -(ParseDigits(s[1..]) as int) else ParseDigits(s)
  }

  lemma DigitsAreDecimal(n: nat)
    ensures Digits(n)[0] != '-' && IsDecimal(Digits(n))
    ensures ParseDecimal(Digits(n)) == n
  {
    DigitsRoundTrip(n);
  }

  lemma NegativeIsDecimal(n: nat)
    requires n > 0
    ensures IsDecimal("-" + Digits(n))
    ensures ParseDecimal("-" + Digits(n)) == -(n as int)
  {
    var s := "-" + Digits(n);
    assert s[0] == '-' && s[1..] == Digits(n);
    DigitsRoundTrip(n);
  }

  /** `int(str(n)) == n`: the sign and the value can be read back. */
  lemma DecimalStringRoundTrip(n: int)
    ensures IsDecimal(DecimalString(n))
    ensures ParseDecimal(DecimalString(n)) == n
  {
    var s := DecimalString(n);
    if n < 0 {
      var m: nat := -n;
      assert s == "-" + Digits(m);
      NegativeIsDecimal(m);
      assert ParseDecimal(s) == -(m as int);
    } else {
      assert s == Digits(n);
      DigitsAreDecimal(n);
      assert ParseDecimal(s) == n;
    }
  }

  /** Different ids give different strings. */
  lemma DecimalStringInjective(m: int, n: int)
    requires DecimalString(m) == DecimalString(n)
    ensures m == n
  {
    DecimalStringRoundTrip(m);
    DecimalStringRoundTrip(n);
  }
}
