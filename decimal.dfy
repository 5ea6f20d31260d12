/**
  `String(n)` for the integer site identifiers the router writes into a header,
  and the decimal reading a consumer of that header performs.
 */
module Decimal {
  import opened Options
  import opened Text

  function DigitChar(d: nat): (c: char)
    requires d < 10
    ensures IsDigit(c)
  {
    (('0' as int) + d) as char
  }

  function DigitValue(c: char): (d: nat)
    requires IsDigit(c)
    ensures d < 10 && DigitChar(d) == c
  {
    (c as int) - ('0' as int)
  }

  predicate AllDigits(s: string)
  {
    forall k :: 0 <= k < |s| ==> IsDigit(s[k])
  }

  /** How `String` writes a natural number: digits only, and no leading zero except in "0". */
  predicate IsNatText(s: string)
  {
    |s| >= 1 && AllDigits(s) && (s[0] == '0' ==> s == "0")
  }

  /** How `String` writes an integer: a natural's text, or `-` before a non-zero natural's text. */
  predicate IsIntText(s: string)
  {
    IsNatText(s) || (|s| >= 2 && s[0] == '-' && IsNatText(s[1..]) && s[1] != '0')
  }

  /** The shortest decimal spelling of `n`. */
  function NatToDecimal(n: nat): (s: string)
    ensures IsNatText(s)
    ensures s[0] == '0' ==> n == 0
  {
    if n < 10 then [DigitChar(n)] else NatToDecimal(n / 10) + [DigitChar(n % 10)]
  }

  /** `String(n)` for an integer `n`: a `-` exactly for a negative `n`. */
  function IntToDecimal(n: int): (s: string)
    ensures IsIntText(s)
    ensures s[0] == '-' <==> n < 0
  {
    if n < 0 then "-" + NatToDecimal(-n) else NatToDecimal(n)
  }

  function DigitsValue(s: string): nat
    requires AllDigits(s)
  {
    if s == [] then 0 else 10 * DigitsValue(s[..|s| - 1]) + DigitValue(s[|s| - 1])
  }

  /** The integer an optional minus sign and a non-empty digit string denote. */
  function ParseInt(s: string): Option<int>
  {
    if |s| >= 2 && s[0] == '-' && AllDigits(s[1..]) then Some(0 - DigitsValue(s[1..]) as int)
    else if |s| >= 1 && AllDigits(s) then Some(DigitsValue(s))
    else None
  }

  lemma {:induction false} NatRoundTrip(n: nat)
    ensures DigitsValue(NatToDecimal(n)) == n
  {
    if n >= 10 {
      var s := NatToDecimal(n);
      NatRoundTrip(n / 10);
      assert s[..|s| - 1] == NatToDecimal(n / 10);
    }
  }

  /** Reading back `String(n)` gives `n`. */
  lemma {:induction false} IntRoundTrip(n: int)
    ensures ParseInt(IntToDecimal(n)) == Some(n)
  {
    var s := IntToDecimal(n);
    if n < 0 {
      var d := NatToDecimal(-n);
      assert s == "-" + d && s[1..] == d;
      NatRoundTrip(-n);
    } else {
      assert s == NatToDecimal(n) && IsDigit(s[0]);
      NatRoundTrip(n);
    }
  }

  /** A natural's text is the spelling NatToDecimal gives its value. */
  lemma {:induction false} NatTextIsDecimal(s: string)
    requires IsNatText(s)
    ensures NatToDecimal(DigitsValue(s)) == s
  {
    var n := |s| - 1;
    if n > 0 {
      var init := s[..n];
      assert init[0] == s[0] && AllDigits(init);
      NatTextIsDecimal(init);
      var v := DigitsValue(s);
      assert v / 10 == DigitsValue(init) && v % 10 == DigitValue(s[n]);
      assert [s[n]] == [DigitChar(DigitValue(s[n]))];
      assert init + [s[n]] == s;
    }
  }

  /** An integer has only one text: two texts that read as the same integer are equal. */
  lemma IntTextIsUnique(s: string, t: string)
    requires IsIntText(s) && IsIntText(t) && ParseInt(s) == ParseInt(t)
    ensures s == t
  {
    if s[0] == '-' {
      NatTextIsDecimal(s[1..]);
      assert [s[0]] + s[1..] == s;
    } else {
      NatTextIsDecimal(s);
    }
    if t[0] == '-' {
      NatTextIsDecimal(t[1..]);
      assert [t[0]] + t[1..] == t;
    } else {
      NatTextIsDecimal(t);
    }
  }
}
