/**
 * Short codes such as "H1" or "E10": a language initial followed by an ordinal
 * written in decimal, the form built by the template `${initial}${count + 1}`.
 */
module ShortCodes {
  import opened Wrappers

  predicate IsDigit(c: char)
  {
    '0' <= c <= '9'
  }

  predicate IsDigits(s: string)
  {
    forall i :: 0 <= i < |s| ==> IsDigit(s[i])
  }

  function DigitChar(d: nat): (c: char)
    requires d < 10
    ensures IsDigit(c)
  {
    ('0' as int + d) as char
  }

  function DigitValue(c: char): (d: nat)
    requires IsDigit(c)
    ensures d < 10
  {
    c as int - '0' as int
  }

  /** The decimal rendering of `n`, as JavaScript's number-to-string conversion writes it. */
  function Decimal(n: nat): (r: string)
    ensures |r| >= 1 && IsDigits(r)
    ensures (r[0] == '0') == (n == 0)
  {
    if n < 10 then [DigitChar(n)] else Decimal(n / 10) + [DigitChar(n % 10)]
  }

  /** The value of a string of decimal digits. */
  function ParseDecimal(s: string): nat
    requires IsDigits(s)
  {
    if s == [] then 0 else ParseDecimal(s[..|s| - 1]) * 10 + DigitValue(s[|s| - 1])
  }

  /** Reading back a rendered number gives the number. */
  lemma {:induction false} ParseDecimalOfDecimal(n: nat)
    ensures ParseDecimal(Decimal(n)) == n
  {
    if n >= 10 {
      ParseDecimalOfDecimal(n / 10);
      var r := Decimal(n);
      assert r[..|r| - 1] == Decimal(n / 10);
    }
  }

  /** The short code for `initial` and ordinal `n`. */
  function ShortCode(initial: char, n: nat): (code: string)
    ensures |code| >= 2 && code[0] == initial && code[1..] == Decimal(n)
  {
    [initial] + Decimal(n)
  }

  /** Splits a short code into its initial and its ordinal; None when it is not of that form. */
  function ParseShortCode(code: string): (r: Option<(char, nat)>)
    ensures r.Some? <==> |code| >= 2 && IsDigits(code[1..])
  {
    if |code| >= 2 && IsDigits(code[1..]) then Some((code[0], ParseDecimal(code[1..]))) else None
  }

  /** Parsing undoes `ShortCode`. */
  lemma ParseShortCodeOfShortCode(initial: char, n: nat)
    ensures ParseShortCode(ShortCode(initial, n)) == Some((initial, n))
  {
    ParseDecimalOfDecimal(n);
  }

  /** Distinct initials or distinct ordinals give distinct short codes. */
  lemma ShortCodeInjective(i1: char, n1: nat, i2: char, n2: nat)
    ensures ShortCode(i1, n1) == ShortCode(i2, n2) <==> i1 == i2 && n1 == n2
  {
    ParseShortCodeOfShortCode(i1, n1);
    ParseShortCodeOfShortCode(i2, n2);
  }
}
