/** Decimal numerals: printing a number and reading it back. */
module Decimals {

  predicate Digit(c: char) {
    '0' <= c <= '9'
  }

  predicate Digits(s: string) {
    |s| > 0 && forall i | 0 <= i < |s| :: Digit(s[i])
  }

  function Decimal(s: string): int {
    if s == "" then 0 else 10 * Decimal(s[..|s| - 1]) + (s[|s| - 1] as int - '0' as int)
  }

  function Itoa(n: nat): string {
    if n < 10 then [('0' as int + n) as char] else Itoa(n / 10) + [('0' as int + n % 10) as char]
  }

  lemma {:induction false} ItoaDigits(n: nat)
    ensures Digits(Itoa(n)) && Decimal(Itoa(n)) == n
    ensures n > 0 ==> Itoa(n)[0] != '0'
  {
    if n < 10 {
      assert Itoa(n)[..0] == "";
    } else {
      ItoaDigits(n / 10);
      var s := Itoa(n);
      assert s[..|s| - 1] == Itoa(n / 10);
    }
  }

  /** A numeral without leading zeros is how its number is printed. */
  lemma {:induction false} DecimalPrints(s: string)
    requires Digits(s) && (|s| == 1 || s[0] != '0')
    ensures Decimal(s) >= 0 && Itoa(Decimal(s)) == s && (s[0] != '0' ==> Decimal(s) > 0)
  {
    var front := s[..|s| - 1];
    if |s| == 1 {
      assert front == "";
    } else {
      DecimalPrints(front);
      assert s == front + [s[|s| - 1]];
    }
  }

  lemma {:induction false} DecimalNatural(s: string)
    requires Digits(s) || s == ""
    ensures Decimal(s) >= 0
  {
    if s != "" { DecimalNatural(s[..|s| - 1]); }
  }

  lemma {:induction false} LeadingZero(s: string)
    requires Digits(s) || s == ""
    ensures Decimal("0" + s) == Decimal(s)
  {
    var t := "0" + s;
    if s == "" {
      assert t[..0] == "";
    } else {
      LeadingZero(s[..|s| - 1]);
      assert t[..|s|] == "0" + s[..|s| - 1];
    }
  }

  // ----- Signed numbers -----

  function Show(n: int): string {
    if n < 0 then "-" + Itoa(-n) else Itoa(n)
  }

  /** An optional minus sign and digits. */
  function Integer(s: string): (r: int)
    requires Numeral(s)
  {
    if s[0] == '-' then -Decimal(s[1..]) else Decimal(s)
  }

  predicate Numeral(s: string) {
    Digits(s) || (|s| > 1 && s[0] == '-' && Digits(s[1..]))
  }

  /** No leading zeros, and no sign before zero. */
  predicate PlainNumeral(s: string) {
    (Digits(s) && (|s| == 1 || s[0] != '0')) || (|s| > 1 && s[0] == '-' && Digits(s[1..]) && s[1] != '0')
  }

  /** A numeral is printed again as it was written exactly when it is plain. */
  lemma ShowsAgainExactly(s: string)
    requires Numeral(s)
    ensures Show(Integer(s)) == s <==> PlainNumeral(s)
  {
    if PlainNumeral(s) {
      if s[0] == '-' { DecimalPrints(s[1..]); } else { DecimalPrints(s); }
    } else {
      var n := Integer(s);
      ItoaDigits(if n < 0 then -n else n);
      assert n < 0 ==> Show(n)[1..] == Itoa(-n);
      assert PlainNumeral(Show(n)) by { ShowIsPlain(n); }
    }
  }

  lemma ShowIsPlain(n: int)
    ensures PlainNumeral(Show(n))
  {
    ItoaDigits(if n < 0 then -n else n);
    if n < 0 { assert Show(n)[1..] == Itoa(-n); }
  }
}
