/** Decimal numerals: printing an integer and reading one back the way `int()` does. */
module Decimals {
  import opened Basics
  import opened Text

  function Digit(d: nat): (c: char)
    requires d < 10
    ensures IsDigit(c) && c as int - '0' as int == d
  {
    ('0' as int + d) as char
  }

  /** `str(n)` for a natural number. */
  function DigitsOf(n: nat): (s: string)
    ensures s != [] && AllDigits(s)
  {
    if n < 10 then [Digit(n)] else DigitsOf(n / 10) + [Digit(n % 10)]
  }

  /** The number a digit string denotes. */
  function ValueOf(s: string): nat
    requires AllDigits(s)
  {
    if s == [] then 0
    else
      assert s[|s| - 1] in s;
      assert AllDigits(s[..|s| - 1]) by { assert forall c :: c in s[..|s| - 1] ==> c in s; }
      10 * ValueOf(s[..|s| - 1]) + (s[|s| - 1] as int - '0' as int)
  }

  lemma {:induction false} ValueOfDigits(n: nat)
    ensures ValueOf(DigitsOf(n)) == n
  {
    var s := DigitsOf(n);
    if n < 10 {
      assert s[..0] == "";
    } else {
      ValueOfDigits(n / 10);
      assert s[..|s| - 1] == DigitsOf(n / 10);
    }
  }

  function IntText(n: int): string {
    if n < 0 then "-" + DigitsOf(-n) else DigitsOf(n)
  }

  predicate IsSign(c: char) { c == '+' || c == '-' }

  /** Digits with single underscores allowed between two of them. */
  predicate IsNumeral(s: string) {
    s != [] && IsDigit(s[|s| - 1]) &&
    (|s| == 1 || IsNumeral(s[..|s| - 1]) || (s[|s| - 2] == '_' && IsNumeral(s[..|s| - 2])))
  }

  lemma {:induction false} NumeralDigits(s: string)
    requires IsNumeral(s)
    ensures AllDigits(RemoveChar(s, '_'))
  {
    var front := s[..|s| - 1];
    if |s| > 1 {
      if IsNumeral(front) {
        NumeralDigits(front);
      } else {
        NumeralDigits(s[..|s| - 2]);
        assert front[..|front| - 1] == s[..|s| - 2];
        assert RemoveChar(front, '_') == RemoveChar(s[..|s| - 2], '_');
      }
    }
  }

  /** The number that digits with separating underscores denote. */
  function Magnitude(digits: string): (n: Option<nat>)
    ensures n.Some? ==> digits != []
  {
    if !IsNumeral(digits) then None
    else
      NumeralDigits(digits);
      Some(ValueOf(RemoveChar(digits, '_')))
  }

  function WithoutSign(s: string): string { if s != [] && IsSign(s[0]) then s[1..] else s }

  function Signed(s: string, n: nat): int
    requires s != []
  {
    if s[0] == '-' then 0 - n else n
  }

  /** `int(text)` for ASCII digits: surrounding whitespace, a sign and digit-separating
      underscores are accepted. */
  function ParseInt(text: string): Option<int> {
    var s := Strip(text);
    match Magnitude(WithoutSign(s))
    case None => None
    case Some(n) => Some(Signed(s, n))
  }

  lemma {:induction false} DigitsAreNumeral(s: string)
    requires s != [] && AllDigits(s)
    ensures IsNumeral(s) && RemoveChar(s, '_') == s && NoSpaces(s) && !IsSign(s[0])
  {
    assert s[|s| - 1] in s && s[0] in s;
    if |s| > 1 {
      assert forall c :: c in s[..|s| - 1] ==> c in s;
      DigitsAreNumeral(s[..|s| - 1]);
    }
  }

  /** Reading back a printed integer gives it unchanged. */
  lemma ParsePrintedInt(n: int)
    ensures ParseInt(IntText(n)) == Some(n)
  {
    if n < 0 { ParseSigned(n); } else { ParseUnsigned(n); }
  }

  lemma MagnitudeOfDigits(n: nat)
    ensures Magnitude(DigitsOf(n)) == Some(n)
  {
    DigitsAreNumeral(DigitsOf(n));
    ValueOfDigits(n);
  }

  lemma ParseUnsigned(n: nat)
    ensures ParseInt(DigitsOf(n)) == Some(n)
  {
    var digits := DigitsOf(n);
    MagnitudeOfDigits(n);
    DigitEnds(digits);
    StripTrimmed(digits);
    assert digits[0] in digits;
  }

  lemma ParseSigned(n: int)
    requires n < 0
    ensures ParseInt("-" + DigitsOf(-n)) == Some(n)
  {
    MagnitudeOfDigits(-n);
    SignedText(DigitsOf(-n));
    SignedReads("-" + DigitsOf(-n), DigitsOf(-n), -n);
  }

  lemma SignedReads(s: string, digits: string, n: nat)
    requires Strip(s) == s && s != [] && s[0] == '-' && WithoutSign(s) == digits && Magnitude(digits) == Some(n)
    ensures ParseInt(s) == Some(0 - n)
  {
  }

  lemma SignedText(digits: string)
    requires digits != [] && AllDigits(digits)
    ensures var s := "-" + digits; Strip(s) == s && s[0] == '-' && WithoutSign(s) == digits
  {
    var s := "-" + digits;
    DigitEnds(digits);
    assert s[|s| - 1] == digits[|digits| - 1];
    StripTrimmed(s);
  }

  lemma DigitEnds(s: string)
    requires s != [] && AllDigits(s)
    ensures !IsSpace(s[0]) && !IsSpace(s[|s| - 1])
  {
    assert s[0] in s && s[|s| - 1] in s;
  }

  // ---- other spellings

  /** Whitespace around, a sign of either kind and leading zeros are accepted. */
  lemma IntegerSpellings(lead: string, sign: string, digits: string, trail: string)
    requires IsOnlySpace(lead) && IsOnlySpace(trail) && (sign == "" || sign == "+" || sign == "-")
    requires digits != "" && AllDigits(digits)
    ensures ParseInt(lead + (sign + digits) + trail)
         == Some(if sign == "-" then 0 - ValueOf(digits) else ValueOf(digits))
  {
    var s := sign + digits;
    DigitEnds(digits);
    DigitsAreNumeral(digits);
    assert s[|s| - 1] == digits[|digits| - 1] && digits[0] in digits;
    StripWrapped(lead, s, trail);
    assert WithoutSign(s) == digits by { if sign == "" { assert s == digits; } else { assert s[1..] == digits; } }
  }

  /** A numeral is digits in which a single underscore may stand between two of them. */
  predicate IsGroupedDigits(s: string) {
    && s != "" && IsDigit(s[0]) && IsDigit(s[|s| - 1])
    && (forall i :: 0 <= i < |s| ==> IsDigit(s[i]) || s[i] == '_')
    && forall i :: 0 < i < |s| ==> IsDigit(s[i - 1]) || IsDigit(s[i])
  }

  lemma {:induction false} NumeralExactly(s: string)
    ensures IsNumeral(s) <==> IsGroupedDigits(s)
  {
    if |s| > 1 {
      var front, fronts := s[..|s| - 1], s[..|s| - 2];
      NumeralExactly(front);
      if |s| > 2 { NumeralExactly(fronts); }
      if IsGroupedDigits(s) && !IsDigit(s[|s| - 2]) {
        assert IsGroupedDigits(fronts);
      } else if IsGroupedDigits(s) {
        assert IsGroupedDigits(front);
      }
    }
  }
}
