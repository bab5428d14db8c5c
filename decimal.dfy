/**
 * Decimal text for integers: an optional minus sign followed by one or more
 * ASCII digits. Writing produces the canonical form (no leading zeros, no
 * "-0"); parsing also accepts non-canonical digit strings such as "09".
 */
module Decimal {
  import opened Wrappers

  predicate IsDigit(c: char) {
    '0' <= c <= '9'
  }

  predicate AllDigits(s: string) {
    forall i :: 0 <= i < |s| ==> IsDigit(s[i])
  }

  /** A non-empty digit string without a leading zero (except "0" itself). */
  predicate CanonicalDigits(s: string) {
    |s| > 0 && AllDigits(s) && (|s| == 1 || s[0] != '0')
  }

  /** The text that writing an integer can produce. */
  predicate CanonicalInt(s: string) {
    || CanonicalDigits(s)
    || (|s| >= 2 && s[0] == '-' && CanonicalDigits(s[1..]) && s[1..] != "0")
  }

  function DigitValue(c: char): (d: nat)
    requires IsDigit(c)
    ensures d < 10
  {
    (c as int - '0' as int) as nat
  }

  function DigitChar(d: nat): (c: char)
    requires d < 10
    ensures IsDigit(c) && DigitValue(c) == d
  {
    ('0' as int + d) as char
  }

  /** The number a digit string denotes, most significant digit first. */
  function DigitsValue(s: string): nat
    requires AllDigits(s)
  {
    if s == [] then 0
    else DigitsValue(s[..|s| - 1]) * 10 + DigitValue(s[|s| - 1])
  }

  /** The canonical digit string of a natural number. */
  function NatDigits(n: nat): (s: string)
    ensures CanonicalDigits(s)
    ensures n > 0 ==> s[0] != '0'
  {
    if n < 10 then [DigitChar(n)]
    else NatDigits(n / 10) + [DigitChar(n % 10)]
  }

  /** Writes an integer as decimal text. */
  function FormatInt(n: int): (s: string)
    ensures CanonicalInt(s)
    ensures |s| > 0 && (s[0] == '-' <==> n < 0)
  {
    if n < 0 then
      var digits := NatDigits(-n);
      assert ("-" + digits)[1..] == digits;
      "-" + digits
    else NatDigits(n)
  }

  /** Reads decimal text; anything but an optional '-' followed by digits is rejected. */
  function ParseInt(s: string): (r: Option<int>)
    ensures r.Some? <==> || (|s| > 0 && AllDigits(s))
                         || (|s| > 1 && s[0] == '-' && AllDigits(s[1..]))
  {
    if |s| > 1 && s[0] == '-' && AllDigits(s[1..]) then Some(0 - DigitsValue(s[1..]) as int)
    else if |s| > 0 && AllDigits(s) then Some(DigitsValue(s))
    else None
  }

  lemma {:induction false} DigitsValueOfNatDigits(n: nat)
    ensures DigitsValue(NatDigits(n)) == n
  {
    if n >= 10 {
      var s := NatDigits(n);
      assert s[..|s| - 1] == NatDigits(n / 10);
      DigitsValueOfNatDigits(n / 10);
    }
  }

  /** A digit string of two or more digits that starts with a non-zero digit denotes at least 10. */
  lemma {:induction false} LeadingDigitBound(s: string)
    requires AllDigits(s) && |s| >= 2 && s[0] != '0'
    ensures DigitsValue(s) >= 10
  {
    var prefix := s[..|s| - 1];
    if |prefix| >= 2 {
      LeadingDigitBound(prefix);
    } else {
      assert DigitsValue(prefix) == DigitValue(prefix[0]);
    }
  }

  lemma {:induction false} NatDigitsOfDigitsValue(s: string)
    requires CanonicalDigits(s)
    ensures NatDigits(DigitsValue(s)) == s
  {
    if |s| >= 2 {
      var prefix := s[..|s| - 1];
      LeadingDigitBound(s);
      NatDigitsOfDigitsValue(prefix);
      assert DigitsValue(s) / 10 == DigitsValue(prefix);
      assert s == prefix + [s[|s| - 1]];
    } else {
      assert DigitsValue(s) == DigitValue(s[0]);
    }
  }

  /** Reading back what was written gives the original integer. */
  lemma ParseFormat(n: int)
    ensures ParseInt(FormatInt(n)) == Some(n)
  {
    if n < 0 {
      assert FormatInt(n)[1..] == NatDigits(-n);
      DigitsValueOfNatDigits(-n);
    } else {
      DigitsValueOfNatDigits(n);
    }
  }

  /** Writing what was read gives the original text exactly when that text is canonical. */
  lemma FormatParse(s: string)
    ensures CanonicalInt(s) <==> ParseInt(s).Some? && FormatInt(ParseInt(s).value) == s
  {
    if CanonicalDigits(s) {
      NatDigitsOfDigitsValue(s);
    } else if CanonicalInt(s) {
      var digits := s[1..];
      NatDigitsOfDigitsValue(digits);
      if |digits| >= 2 { LeadingDigitBound(digits); }
      assert DigitsValue(digits) > 0;
      assert s == "-" + digits;
    } else if ParseInt(s).Some? {
      assert FormatInt(ParseInt(s).value) != s;
    }
  }
}
