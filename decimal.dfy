/**
 * Decimal formatting of Go integers, as `strconv.Itoa` writes them, with an
 * independent parser to state what the formatting preserves.
 */
module Decimal {
  import opened Wrappers

  function DigitChar(d: nat): (c: char)
    requires d < 10
    ensures '0' <= c <= '9' && c as int - '0' as int == d
  {
    ('0' as int + d) as char
  }

  /** The shortest decimal spelling of a natural number (no leading zeros). */
  function NatToString(n: nat): (r: string)
    decreases n
  {
    if n < 10 then [DigitChar(n)] else NatToString(n / 10) + [DigitChar(n % 10)]
  }

  /** `strconv.Itoa`: a minus sign for negative values, then the digits of the magnitude. */
  function Itoa(n: int): (r: string)
    ensures |r| > 0 && (r[0] == '-' <==> n < 0)
    ensures IsDigits(if n < 0 then r[1..] else r)
    ensures var d := if n < 0 then r[1..] else r; |d| > 1 ==> d[0] != '0'
  {
    if n < 0 then
      NatToStringDigits(-n);
      NatToStringLeadingDigit(-n);
      var r := "-" + NatToString(-n);
      assert r[1..] == NatToString(-n);
      r
    else
      NatToStringDigits(n);
      NatToStringLeadingDigit(n);
      NatToString(n)
  }

  predicate IsDigits(s: string)
  {
    forall i :: 0 <= i < |s| ==> '0' <= s[i] <= '9'
  }

  function ParseDigits(s: string): nat
    requires IsDigits(s)
  {
    if s == [] then 0 else ParseDigits(s[..|s| - 1]) * 10 + (s[|s| - 1] as int - '0' as int)
  }

  /** Reads back an optionally negative, non-empty decimal numeral. */
  function Atoi(s: string): Option<int>
  {
    if |s| > 1 && s[0] == '-' && IsDigits(s[1..]) then Some(-(ParseDigits(s[1..]) as int))
    else if |s| > 0 && IsDigits(s) then Some(ParseDigits(s) as int)
    else None
  }

  /** The spelling starts with '0' only for zero itself, so it has no leading zeros. */
  lemma {:induction false} NatToStringLeadingDigit(n: nat)
    ensures |NatToString(n)| > 0
    ensures NatToString(n)[0] == '0' <==> n == 0
    decreases n
  {
    if n >= 10 {
      NatToStringLeadingDigit(n / 10);
      assert NatToString(n)[0] == NatToString(n / 10)[0];
    }
  }

  lemma {:induction false} NatToStringDigits(n: nat)
    ensures |NatToString(n)| > 0 && IsDigits(NatToString(n))
    ensures ParseDigits(NatToString(n)) == n
    decreases n
  {
    if n >= 10 {
      NatToStringDigits(n / 10);
      var s := NatToString(n);
      assert s[..|s| - 1] == NatToString(n / 10);
    }
  }

  /** `Itoa` loses nothing: its output reads back as the same integer. */
  lemma ItoaRoundTrip(n: int)
    ensures |Itoa(n)| > 0
    ensures Atoi(Itoa(n)) == Some(n)
  {
    if n < 0 {
      NatToStringDigits(-n);
      assert Itoa(n)[1..] == NatToString(-n);
    } else {
      NatToStringDigits(n);
    }
  }
}
