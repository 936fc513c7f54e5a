/** Amounts in minor units: printing, parsing and discounts. */
module Money {
  import opened Options
  import opened Text

  /** Text before the first point, and between the first two. */
  function Whole(decimal: string): string {
    decimal[..IndexOf(decimal, '.')]
  }

  function Fraction(decimal: string): string {
    var point := IndexOf(decimal, '.');
    if point == |decimal| then "" else
      var rest := decimal[point + 1..];
      rest[..IndexOf(rest, '.')]
  }

  /** The first `decimals` digits, with zeros for those that are missing. */
  function Cut(fraction: string, decimals: nat): string {
    (fraction + Zeros(decimals))[..decimals]
  }

  function Signed(negative: bool, size: int): int {
    if negative then -size else size
  }

  function Size(whole: string, fraction: string, decimals: nat): nat
    requires AllDigits(whole) && AllDigits(fraction)
  {
    Value(whole) * Pow10(decimals) + Value(fraction)
  }

  /** No result where the digits kept of the fraction are not all decimal digits. */
  function ToMinor(decimal: string, decimals: nat): Option<int> {
    var fraction := Cut(Fraction(decimal), decimals);
    if !AllDigits(fraction) then None else
      Some(Signed(TrimmedStartsWith(Whole(decimal), '-'), Size(KeepDigits(Whole(decimal)), fraction, decimals)))
  }

  function Abs(x: int): nat {
    if x < 0 then -x else x
  }

  function Sign(negative: bool): string {
    if negative then "-" else ""
  }

  function Decimal(negative: bool, whole: string, fraction: string): string {
    Sign(negative) + whole + "." + fraction
  }

  function FromMinor(minor: int, decimals: nat): string {
    var base := Pow10(decimals);
    Decimal(minor < 0, Show(Over(Abs(minor), base)), PadStart(Show(Rest(Abs(minor), base)), decimals))
  }

  /** The digits after the point: as many as asked for, but at least one. */
  function Places(decimals: nat): nat {
    if decimals == 0 then 1 else decimals
  }

  lemma FromMinorParts(minor: int, decimals: nat) returns (whole: string, fraction: string)
    ensures FromMinor(minor, decimals) == Decimal(minor < 0, whole, fraction)
    ensures Numeral(whole) && AllDigits(fraction) && |fraction| == Places(decimals)
    ensures Value(fraction) < Pow10(decimals)
    ensures Abs(minor) == Size(whole, fraction, decimals)
  {
    var base := Pow10(decimals);
    whole := Show(Over(Abs(minor), base));
    fraction := PadStart(Show(Rest(Abs(minor), base)), decimals);
    PadStartKeepsValue(Show(Rest(Abs(minor), base)), decimals);
    if decimals > 0 {
      ShowFits(Rest(Abs(minor), base), decimals);
    }
  }

  /** A decimal is taken apart where it was put together. */
  lemma TakenApart(negative: bool, whole: string, fraction: string)
    requires AllDigits(whole) && AllDigits(fraction)
    ensures Whole(Decimal(negative, whole, fraction)) == Sign(negative) + whole
    ensures Fraction(Decimal(negative, whole, fraction)) == fraction
  {
    var head := Sign(negative) + whole;
    var text := Decimal(negative, whole, fraction);
    assert text == head + ['.'] + fraction;
    IndexOfFirst(head, '.', fraction);
    assert text[|head| + 1..] == fraction;
    IndexOfFirst(fraction, '.', "");
  }

  lemma HeadIsRead(negative: bool, whole: string)
    requires whole != "" && AllDigits(whole)
    ensures KeepDigits(Sign(negative) + whole) == whole
    ensures TrimmedStartsWith(Sign(negative) + whole, '-') == negative
  {
    KeepDigitsJoins(Sign(negative), whole);
    KeepDigitsKeeps(whole);
    assert KeepDigits("-") == "";
    assert IsDigit(whole[0]);
  }

  lemma KeptDigits(negative: bool, whole: string, fraction: string)
    requires whole != "" && AllDigits(whole) && AllDigits(fraction)
    ensures KeepDigits(Decimal(negative, whole, fraction)) == whole + fraction
  {
    var head := Sign(negative) + whole;
    HeadIsRead(negative, whole);
    assert KeepDigits(head + ".") == whole by {
      KeepDigitsJoins(head, ".");
      assert KeepDigits(".") == "";
    }
    KeepDigitsKeeps(fraction);
    KeepDigitsJoins(head + ".", fraction);
    assert head + "." + fraction == Decimal(negative, whole, fraction);
  }

  lemma CutIsDigits(fraction: string, decimals: nat)
    requires AllDigits(fraction)
    ensures AllDigits(Cut(fraction, decimals))
  {
  }

  lemma ToMinorOfDecimal(negative: bool, whole: string, fraction: string, decimals: nat)
    requires whole != "" && AllDigits(whole) && AllDigits(fraction)
    ensures AllDigits(Cut(fraction, decimals))
    ensures ToMinor(Decimal(negative, whole, fraction), decimals)
      == Some(Signed(negative, Size(whole, Cut(fraction, decimals), decimals)))
  {
    TakenApart(negative, whole, fraction);
    HeadIsRead(negative, whole);
    CutIsDigits(fraction, decimals);
  }

  /** Parsing undoes printing, for every amount and every number of places. */
  lemma PrintedIsParsed(minor: int, decimals: nat)
    ensures ToMinor(FromMinor(minor, decimals), decimals) == Some(minor)
  {
    var whole, fraction := FromMinorParts(minor, decimals);
    DecimalIsParsed(minor < 0, whole, fraction, decimals);
  }

  lemma DecimalIsParsed(negative: bool, whole: string, fraction: string, decimals: nat)
    requires whole != "" && AllDigits(whole) && AllDigits(fraction)
    requires |fraction| == Places(decimals) && Value(fraction) < Pow10(decimals)
    ensures ToMinor(Decimal(negative, whole, fraction), decimals)
      == Some(Signed(negative, Size(whole, fraction, decimals)))
  {
    ToMinorOfDecimal(negative, whole, fraction, decimals);
    FirstSize(whole, fraction, decimals);
  }

  lemma FirstSize(whole: string, fraction: string, decimals: nat)
    requires AllDigits(whole) && AllDigits(fraction)
    requires |fraction| == Places(decimals) && Value(fraction) < Pow10(decimals)
    ensures AllDigits(Cut(fraction, decimals))
    ensures Size(whole, Cut(fraction, decimals), decimals) == Size(whole, fraction, decimals)
  {
    FirstPlaces(fraction, decimals);
  }

  /** Nothing is cut from a fraction of the printed width but the zero printed for no places. */
  lemma FirstPlaces(fraction: string, decimals: nat)
    requires AllDigits(fraction) && |fraction| == Places(decimals) && Value(fraction) < Pow10(decimals)
    ensures AllDigits(Cut(fraction, decimals)) && Value(Cut(fraction, decimals)) == Value(fraction)
  {
    if decimals > 0 {
      assert Cut(fraction, decimals) == fraction;
    }
  }

  predicate IsNegative(text: string) {
    text != "" && text[0] == '-'
  }

  function Unsigned(text: string): string {
    if IsNegative(text) then text[1..] else text
  }

  /** The texts printing produces. */
  predicate Canonical(text: string, decimals: nat) {
    var whole := Unsigned(Whole(text));
    var fraction := Fraction(text);
    && text == Decimal(IsNegative(text), whole, fraction)
    && Numeral(whole) && AllDigits(fraction) && |fraction| == Places(decimals)
    && Value(fraction) < Pow10(decimals)
    && (IsNegative(text) ==> Value(whole) != 0 || Value(fraction) != 0)
  }

  predicate Reprinted(text: string, decimals: nat) {
    var minor := ToMinor(text, decimals);
    minor.Some? && FromMinor(minor.value, decimals) == text
  }

  /** Printing undoes parsing for exactly the canonical texts. */
  lemma ParsedIsPrintedIff(text: string, decimals: nat)
    ensures Reprinted(text, decimals) <==> Canonical(text, decimals)
  {
    if Canonical(text, decimals) {
      CanonicalIsReprinted(IsNegative(text), Unsigned(Whole(text)), Fraction(text), decimals);
    }
    if Reprinted(text, decimals) {
      PrintedIsCanonical(ToMinor(text, decimals).value, decimals);
    }
  }

  lemma PrintedIsCanonical(minor: int, decimals: nat)
    ensures Canonical(FromMinor(minor, decimals), decimals)
  {
    var whole, fraction := FromMinorParts(minor, decimals);
    TakenApart(minor < 0, whole, fraction);
    var text := FromMinor(minor, decimals);
    assert IsDigit(whole[0]);
    assert IsNegative(text) == IsNegative(Whole(text)) == (minor < 0);
    assert Unsigned(Whole(text)) == whole;
    if minor < 0 {
      SizeIsZero(Value(whole), Pow10(decimals), Value(fraction));
    }
  }

  lemma CanonicalIsReprinted(negative: bool, whole: string, fraction: string, decimals: nat)
    requires Numeral(whole) && AllDigits(fraction) && |fraction| == Places(decimals)
    requires Value(fraction) < Pow10(decimals)
    requires negative ==> Value(whole) != 0 || Value(fraction) != 0
    ensures Reprinted(Decimal(negative, whole, fraction), decimals)
  {
    ToMinorOfDecimal(negative, whole, fraction, decimals);
    FirstPlaces(fraction, decimals);
    SizeIsZero(Value(whole), Pow10(decimals), Value(fraction));
    var minor := Signed(negative, Size(whole, fraction, decimals));
    var whole', fraction' := FromMinorParts(minor, decimals);
    SameDivision(Value(whole), Value(whole'), Pow10(decimals), Value(fraction), Value(fraction'));
    ShowOfValue(whole);
    ShowOfValue(whole');
    ValueIsInjective(fraction, fraction');
  }

  lemma SizeIsZero(whole: nat, base: nat, fraction: nat)
    requires base >= 1
    ensures whole * base + fraction >= 0
    ensures whole * base + fraction == 0 <==> whole == 0 && fraction == 0
  {
  }

  // ---- the amount a payment is initiated with ----

  /** The digits of a text, taken as one number; no digits make zero. */
  function Amount(text: string): nat {
    Value(KeepDigits(text))
  }

  /** Reading a printed amount this way loses the sign, and without decimal places the zero after
      the point counts as a digit. */
  lemma AmountOfPrinted(minor: int, decimals: nat)
    ensures Amount(FromMinor(minor, decimals)) == Abs(minor) * (if decimals == 0 then 10 else 1)
  {
    var whole, fraction := FromMinorParts(minor, decimals);
    KeptDigits(minor < 0, whole, fraction);
    ValueJoins(whole, fraction);
    if decimals == 0 {
      assert Pow10(1) == 10 * Pow10(0);
    }
  }

  /** Digits, with a point and digits behind it or without. */
  function AmountText(whole: string, fraction: Option<string>): string {
    match fraction
    case None => whole
    case Some(digits) => Decimal(false, whole, digits)
  }

  /** Such a text read as an amount and as a decimal with two places: the readings agree exactly when
      it has a point with two digits behind it, or all digits are zero. */
  lemma AmountIsMinorIff(whole: string, fraction: Option<string>)
    requires whole != "" && AllDigits(whole) && (fraction.Some? ==> AllDigits(fraction.value))
    ensures var text := AmountText(whole, fraction);
            ToMinor(text, 2) == Some(Amount(text))
            <==> ((fraction.Some? && |fraction.value| == 2) || Amount(text) == 0)
  {
    match fraction
    case None =>
      WholeAmountIsMinorIff(whole);
    case Some(digits) =>
      ToMinorOfDecimal(false, whole, digits, 2);
      KeptDigits(false, whole, digits);
      ReadingsAgreeIff(whole, digits);
  }

  lemma WithoutPoint(whole: string)
    requires AllDigits(whole)
    ensures Whole(whole) == whole && Fraction(whole) == ""
  {
    IndexOfFirst(whole, '.', "");
    assert whole[..|whole|] == whole;
  }

  lemma WholeAmountIsMinorIff(whole: string)
    requires whole != "" && AllDigits(whole)
    ensures ToMinor(whole, 2) == Some(Amount(whole)) <==> Amount(whole) == 0
  {
    WithoutPoint(whole);
    HeadIsRead(false, whole);
    assert Sign(false) + whole == whole;
    KeepDigitsKeeps(whole);
    assert whole + "" == whole;
    ReadingsAgreeIff(whole, "");
  }

  lemma ReadingsAgreeIff(whole: string, fraction: string)
    requires AllDigits(whole) && AllDigits(fraction)
    ensures AllDigits(Cut(fraction, 2)) && AllDigits(whole + fraction)
    ensures Size(whole, Cut(fraction, 2), 2) == Value(whole + fraction)
      <==> |fraction| == 2 || Value(whole + fraction) == 0
  {
    ValueJoins(whole, fraction);
    if |fraction| < 2 {
      CutShort(fraction);
      ShortReading(Value(whole), Value(fraction), |fraction|);
    } else {
      var rest := CutLong(fraction);
      if |fraction| > 2 {
        LongReading(Value(whole), Value(Cut(fraction, 2)), rest, |fraction| - 2);
      }
    }
  }

  lemma CutShort(fraction: string)
    requires AllDigits(fraction) && |fraction| < 2
    ensures AllDigits(Cut(fraction, 2)) && Value(Cut(fraction, 2)) == Value(fraction) * Pow10(2 - |fraction|)
  {
    assert Cut(fraction, 2) == fraction + Zeros(2 - |fraction|);
    ValueJoins(fraction, Zeros(2 - |fraction|));
  }

  lemma CutLong(fraction: string) returns (rest: nat)
    requires AllDigits(fraction) && |fraction| >= 2
    ensures AllDigits(Cut(fraction, 2)) && Value(fraction) == Value(Cut(fraction, 2)) * Pow10(|fraction| - 2) + rest
    ensures |fraction| == 2 ==> Cut(fraction, 2) == fraction
  {
    assert Cut(fraction, 2) == fraction[..2] && fraction == fraction[..2] + fraction[2..];
    ValueJoins(fraction[..2], fraction[2..]);
    rest := Value(fraction[2..]);
  }

  lemma ShortReading(whole: nat, fraction: nat, places: nat)
    requires places < 2
    ensures whole * Pow10(2) + fraction * Pow10(2 - places) == whole * Pow10(places) + fraction
      <==> whole * Pow10(places) + fraction == 0
  {
    assert Pow10(0) == 1 && Pow10(1) == 10 * Pow10(0) && Pow10(2) == 10 * Pow10(1);
  }

  lemma LongReading(whole: nat, cut: nat, rest: nat, places: nat)
    requires places >= 1
    ensures whole * Pow10(2) + cut == whole * Pow10(places + 2) + (cut * Pow10(places) + rest)
      <==> whole * Pow10(places + 2) + (cut * Pow10(places) + rest) == 0
  {
    assert Pow10(places + 2) == 100 * Pow10(places) && Pow10(2) == 100 && Pow10(places) >= 10;
    var p := Pow10(places);
    var m := whole * 100 + cut;
    assert whole * (100 * p) + cut * p == m * p;
    if m > 0 {
      ProductGrows(10, p, m);
    }
  }

  // ---- discounts ----

  /** Division of whole numbers as BigInt does it: towards zero. */
  function Quotient(a: int, b: int): int
    requires b > 0
  {
    if a < 0 then -(-a / b) else a / b
  }

  /** A hundred percent, in thousandths of a percent. */
  const FULL := 100000

  /** `factor` is the percentage in thousandths, rounded. */
  function ApplyDiscount(amount: int, factor: int): int {
    if factor <= 0 then amount
    else if factor >= FULL then 0
    else Quotient(amount * (FULL - factor), FULL)
  }
}
