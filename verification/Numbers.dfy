/** Peso amounts: the report composer prints them with dot-grouped thousands and the
    sheet adapter reads such cells back. */
module Numbers {
  import opened Basics
  import opened Text
  import opened Decimals

  datatype Number = Whole(n: int) | Fractional(x: real)

  const FLOAT_EXACT := 0x20_0000_0000_0000  // 2^53: every smaller integer is a float

  function Pad3(n: nat): (s: string)
    requires n < 1000
    ensures |s| == 3 && AllDigits(s)
  {
    [Digit(n / 100), Digit(n / 10 % 10), Digit(n % 10)]
  }

  /** `f"{n:,.0f}"` for an integral amount. */
  function GroupThousands(n: nat): string {
    if n < 1000 then DigitsOf(n) else GroupThousands(n / 1000) + "," + Pad3(n % 1000)
  }

  function FormatArs(n: int): string {
    "ARS " + ReplaceChar((if n < 0 then "-" else "") + GroupThousands(if n < 0 then -n else n), ',', '.')
  }

  /** The whole text matches `\d{1,3}(\.\d{3})+`. */
  predicate IsGrouped(s: string) {
    && |s| >= 5 && s[|s| - 4] == '.' && AllDigits(s[|s| - 3..])
    && (IsGrouped(s[..|s| - 4]) || (|s| <= 7 && AllDigits(s[..|s| - 4])))
  }

  /** The text handed to the float reader: no currency label, no grouping. */
  function PlainText(stripped: string): string {
    var cleaned := RemoveChar(RemoveWord(RemoveChar(stripped, '$'), "ARS"), ' ');
    if ',' in cleaned then ReplaceChar(RemoveChar(cleaned, '.'), ',', '.')
    else if IsGrouped(cleaned) then RemoveChar(cleaned, '.')
    else cleaned
  }

  /** Reads one sheet cell; `toFloat` is the host's float reader. */
  function ParseNumber(value: string, toFloat: string -> Option<real>): Option<Number> {
    var stripped := Strip(value);
    if stripped == [] then None else AsNumber(toFloat(PlainText(stripped)))
  }

  function AsNumber(parsed: Option<real>): Option<Number> {
    match parsed
    case None => None
    case Some(x) => if x.Floor as real == x then Some(Whole(x.Floor)) else Some(Fractional(x))
  }

  /** Integers below 2^53 are read exactly, with either sign. */
  ghost predicate ReadsIntegers(toFloat: string -> Option<real>) {
    forall s :: s != [] && AllDigits(s) && ValueOf(s) < FLOAT_EXACT ==>
                  && toFloat(s) == Some(ValueOf(s) as real)
                  && toFloat("-" + s) == Some(-(ValueOf(s) as real))
  }

  /** A decimal with one dot is read to within one of its whole part. */
  ghost predicate ReadsFractions(toFloat: string -> Option<real>) {
    forall q: nat, k: nat :: q < 1000 && k < 1000 ==>
                               match toFloat("-" + DigitsOf(q) + "." + Pad3(k))
                               case Some(x) => -(q as real) - 1.0 <= x <= -(q as real)
                               case None => false
  }

  /** Text with two dots is not a number. */
  ghost predicate RefusesTwoDots(toFloat: string -> Option<real>) {
    forall a: string, b: string, c: string :: toFloat(a + "." + b + "." + c) == None
  }

  /** What the program relies on from the host's float reader. */
  ghost predicate ReadsDecimals(toFloat: string -> Option<real>) {
    ReadsIntegers(toFloat) && ReadsFractions(toFloat) && RefusesTwoDots(toFloat)
  }

  /** The grouped text with dots for commas. */
  function Dotted(n: nat): string { ReplaceChar(GroupThousands(n), ',', '.') }

  lemma DottedUnfold(n: nat)
    ensures n < 1000 ==> Dotted(n) == DigitsOf(n)
    ensures n >= 1000 ==> Dotted(n) == Dotted(n / 1000) + "." + Pad3(n % 1000)
  {
  }

  lemma DigitsBelowThousand(n: nat)
    requires n < 1000
    ensures 1 <= |DigitsOf(n)| <= 3
  {
    if n >= 100 {
      assert |DigitsOf(n / 100)| == 1 && n / 10 / 10 == n / 100;
      assert |DigitsOf(n / 10)| == 2;
    } else if n >= 10 {
      assert |DigitsOf(n / 10)| == 1;
    }
  }

  lemma ValueOfPadded(s: string, k: nat)
    requires AllDigits(s) && k < 1000
    ensures AllDigits(s + Pad3(k)) && ValueOf(s + Pad3(k)) == 1000 * ValueOf(s) + k
  {
    var p := Pad3(k);
    assert p[0] in p && p[1] in p && p[2] in p;
    ValueOfLonger(s, p[0]);
    ValueOfLonger(s + [p[0]], p[1]);
    ValueOfLonger(s + [p[0]] + [p[1]], p[2]);
    assert s + [p[0]] + [p[1]] + [p[2]] == s + p;
    ThreeDigits(k);
  }

  lemma ThreeDigits(k: nat)
    requires k < 1000
    ensures k == 100 * (k / 100) + 10 * (k / 10 % 10) + k % 10
  {
  }

  lemma ValueOfLonger(s: string, d: char)
    requires AllDigits(s) && IsDigit(d)
    ensures AllDigits(s + [d]) && ValueOf(s + [d]) == 10 * ValueOf(s) + (d as int - '0' as int)
  {
  }

  /** Digits and dots that begin and end with a digit and denote `n` once ungrouped. */
  ghost predicate DenotesDotted(s: string, n: nat) {
    && s != [] && IsDigit(s[0]) && IsDigit(s[|s| - 1])
    && (forall c :: c in s ==> IsDigit(c) || c == '.')
    && AllDigits(RemoveChar(s, '.')) && RemoveChar(s, '.') != []
    && ValueOf(RemoveChar(s, '.')) == n
  }

  lemma DottedStep(front: string, q: nat, k: nat)
    requires DenotesDotted(front, q) && k < 1000
    ensures DenotesDotted(front + "." + Pad3(k), 1000 * q + k)
  {
    var p := Pad3(k);
    RemoveCharConcat(front + ".", p, '.');
    RemoveCharConcat(front, ".", '.');
    assert RemoveChar(".", '.') == "" by { assert "."[..0] == ""; }
    assert RemoveChar(p, '.') == p;
    ValueOfPadded(RemoveChar(front, '.'), k);
    assert RemoveChar(front + "." + p, '.') == RemoveChar(front, '.') + p;
    assert p[2] in p;
  }

  lemma GroupedStep(front: string, k: nat)
    requires k < 1000
    requires IsGrouped(front) || (1 <= |front| <= 3 && AllDigits(front))
    ensures IsGrouped(front + "." + Pad3(k))
  {
    var s := front + "." + Pad3(k);
    assert s[..|s| - 4] == front && s[|s| - 3..] == Pad3(k);
  }

  /** Dot grouping is recognised by the reader's pattern, and ungrouping gives the number's digits. */
  lemma {:induction false} DottedShape(n: nat)
    ensures DenotesDotted(Dotted(n), n)
    ensures n >= 1000 ==> IsGrouped(Dotted(n))
  {
    DottedUnfold(n);
    if n < 1000 {
      var s := Dotted(n);
      ValueOfDigits(n);
      assert s[0] in s && s[|s| - 1] in s;
    } else {
      DottedShape(n / 1000);
      DottedStep(Dotted(n / 1000), n / 1000, n % 1000);
      if n / 1000 < 1000 { DigitsBelowThousand(n / 1000); DottedUnfold(n / 1000); }
      GroupedStep(Dotted(n / 1000), n % 1000);
    }
  }

  lemma RemoveLabel(body: string)
    requires 'A' !in body
    ensures RemoveWord("ARS " + body, "ARS") == " " + body
  {
    var s := "ARS " + body;
    assert "ARS" <= s && s[3..] == " " + body;
    RemoveWordAbsent(" " + body, "ARS");
  }

  /** The cell text reaches the float reader without the currency label. */
  lemma CleanedAmount(body: string)
    requires body != [] && (forall c :: c in body ==> IsDigit(c) || c == '.' || c == '-')
    ensures Strip("ARS " + body) == "ARS " + body
    ensures RemoveChar(RemoveWord(RemoveChar("ARS " + body, '$'), "ARS"), ' ') == body
  {
    var s := "ARS " + body;
    assert body[|body| - 1] in body;
    StripTrimmed(s);
    assert RemoveChar(s, '$') == s;
    RemoveLabel(body);
    RemoveCharConcat(" ", body, ' ');
    assert RemoveChar(" ", ' ') == "" by { assert " "[..0] == ""; }
  }

  lemma FormatArsBody(n: int)
    ensures FormatArs(n) == "ARS " + (if n < 0 then "-" + Dotted(-n) else Dotted(n))
  {
  }

  lemma {:induction false} NotGroupedSigned(s: string)
    ensures !IsGrouped("-" + s)
    decreases |s|
  {
    var t := "-" + s;
    if |t| >= 5 {
      assert t[..|t| - 4] == "-" + s[..|s| - 4];
      NotGroupedSigned(s[..|s| - 4]);
      assert t[..|t| - 4][0] == '-' && '-' in t[..|t| - 4];
    }
  }

  /** The text that reaches the float reader for a printed amount: a negative one keeps its dots. */
  function FloatText(n: int): string {
    if n < 0 then "-" + Dotted(-n) else RemoveChar(Dotted(n), '.')
  }

  lemma AmountText(n: int)
    ensures Strip(FormatArs(n)) == FormatArs(n) && PlainText(FormatArs(n)) == FloatText(n)
  {
    FormatArsBody(n);
    var dotted := Dotted(if n < 0 then -n else n);
    DottedShape(if n < 0 then -n else n);
    if n < 0 {
      CleanedAmount("-" + dotted);
      NotGroupedSigned(dotted);
      SignedPlain(dotted);
    } else {
      CleanedAmount(dotted);
      UnsignedPlain(n);
    }
  }

  lemma SignedPlain(s: string)
    requires forall c :: c in s ==> IsDigit(c) || c == '.'
    ensures ',' !in "-" + s
  {
  }

  /** Plain digits and dots lose their dots, grouped or too short to be. */
  lemma UnsignedPlain(n: nat)
    ensures ',' !in Dotted(n) && (IsGrouped(Dotted(n)) || RemoveChar(Dotted(n), '.') == Dotted(n))
  {
    DottedShape(n);
    if n < 1000 {
      DottedUnfold(n);
      assert '.' !in DigitsOf(n);
    }
  }

  lemma MillionsRefused(n: int, toFloat: string -> Option<real>)
    requires RefusesTwoDots(toFloat) && n <= -1000000
    ensures toFloat(FloatText(n)) == None
  {
    var m := -n;
    DottedUnfold(m);
    DottedUnfold(m / 1000);
    SignBefore(Dotted(m / 1000 / 1000), Pad3(m / 1000 % 1000), Pad3(m % 1000));
  }

  lemma SignBefore(a: string, b: string, c: string)
    ensures "-" + (a + "." + b) == ("-" + a) + "." + b
    ensures "-" + (a + "." + b + "." + c) == ("-" + a) + "." + b + "." + c
  {
  }

  lemma ThousandsMisread(n: int, toFloat: string -> Option<real>)
    requires ReadsFractions(toFloat) && -1000000 < n <= -1000
    ensures toFloat(FloatText(n)) != Some(n as real)
  {
    var m := -n;
    DottedUnfold(m);
    DottedUnfold(m / 1000);
    SignBefore(DigitsOf(m / 1000), Pad3(m % 1000), "");
  }

  lemma OtherAmountsRead(n: int, toFloat: string -> Option<real>)
    requires ReadsIntegers(toFloat) && -1000 < n < FLOAT_EXACT
    ensures toFloat(FloatText(n)) == Some(n as real)
  {
    if n < 0 {
      DottedUnfold(-n);
      ValueOfDigits(-n);
      assert toFloat("-" + DigitsOf(-n)) == Some(-((-n) as real));
    } else {
      DottedShape(n);
    }
  }

  /** Printing an integral peso amount and reading the cell back gives the amount, for exactly
      the amounts above -1000 (within float precision). */
  lemma AmountRoundTrip(n: int, toFloat: string -> Option<real>)
    requires ReadsDecimals(toFloat) && -FLOAT_EXACT < n < FLOAT_EXACT
    ensures ParseNumber(FormatArs(n), toFloat) == Some(Whole(n)) <==> n > -1000
  {
    AmountText(n);
    if n <= -1000000 {
      MillionsRefused(n, toFloat);
    } else if n <= -1000 {
      ThousandsMisread(n, toFloat);
    } else {
      OtherAmountsRead(n, toFloat);
    }
  }

  /** -1234 prints as `ARS -1.234`; its dot is not taken for grouping, so it does not read back. */
  lemma NegativeThousandMisread(toFloat: string -> Option<real>)
    requires ReadsDecimals(toFloat)
    ensures FormatArs(-1234) == "ARS -1.234" && PlainText(FormatArs(-1234)) == "-1.234"
    ensures ParseNumber(FormatArs(-1234), toFloat) != Some(Whole(-1234))
  {
    NegativeThousandText();
    AmountText(-1234);
    AmountRoundTrip(-1234, toFloat);
  }

  lemma NegativeThousandText()
    ensures FormatArs(-1234) == "ARS -1.234" && FloatText(-1234) == "-1.234"
  {
    FormatArsBody(-1234);
    OneThousandDotted();
  }

  lemma OneThousandDotted()
    ensures Dotted(1234) == "1.234"
  {
    DottedUnfold(1234);
    DottedUnfold(1);
    assert DigitsOf(1) == "1" && Pad3(234) == "234";
  }

  /** A comma is the decimal mark: the dots before it group, and it becomes the dot the float reader takes. */
  lemma CommaIsDecimal(n: nat, cents: string, toFloat: string -> Option<real>)
    requires cents != "" && AllDigits(cents)
    ensures ParseNumber(Dotted(n) + "," + cents, toFloat)
         == AsNumber(toFloat(RemoveChar(Dotted(n), '.') + "." + cents))
  {
    var dotted := Dotted(n);
    var text := dotted + "," + cents;
    DottedShape(n);
    assert cents[|cents| - 1] in cents;
    StripTrimmed(text);
    assert forall c :: c in text ==> IsDigit(c) || c == '.' || c == ',';
    NothingToDrop(text);
    RemoveCharConcat(dotted + ",", cents, '.');
    RemoveCharConcat(dotted, ",", '.');
    CommaToDot(RemoveChar(dotted, '.'), cents);
  }

  lemma NothingToDrop(text: string)
    requires forall c :: c in text ==> IsDigit(c) || c == '.' || c == ','
    ensures RemoveChar(RemoveWord(RemoveChar(text, '$'), "ARS"), ' ') == text
  {
    RemoveWordAbsent(text, "ARS");
  }

  lemma CommaToDot(whole: string, cents: string)
    requires AllDigits(whole) && AllDigits(cents)
    ensures ReplaceChar(whole + "," + cents, ',', '.') == whole + "." + cents
  {
    var s, t := whole + "," + cents, whole + "." + cents;
    forall i | 0 <= i < |s| ensures ReplaceChar(s, ',', '.')[i] == t[i] {
      assert i < |whole| ==> s[i] in whole;
      assert i > |whole| ==> s[i] in cents;
    }
  }

  /** A blank cell holds no number, and one that reads as an integral number holds that integer. */
  lemma CellHolds(value: string, toFloat: string -> Option<real>)
    ensures IsOnlySpace(value) ==> ParseNumber(value, toFloat) == None
    ensures !IsOnlySpace(value) ==>
              match toFloat(PlainText(Strip(value)))
              case None => ParseNumber(value, toFloat) == None
              case Some(x) =>
                ParseNumber(value, toFloat)
                == Some(if x == x.Floor as real then Whole(x.Floor) else Fractional(x))
  {
    BlankIsOnlySpace(value);
  }
}
