/** The check digit of card numbers (Luhn; ISO/IEC 7812-1, Annex B), as the bank-card service
    computes it, and what it detects. */
module BankCards {

  import opened Text

  /** What `normalizeCardNumber` removes. */
  predicate IsSeparator(c: char) {
    IsSpace(c) || c == '-'
  }

  function Normalize(value: string): string {
    if value == "" then ""
    else (if IsSeparator(value[0]) then "" else [value[0]]) + Normalize(value[1..])
  }

  function Digits(card: string): (d: seq<int>)
    ensures |d| == |card| && (AllDigits(card) ==> AreDigits(d))
    ensures forall i | 0 <= i < |card| :: d[i] == DigitOf(card[i])
  {
    seq(|card|, i requires 0 <= i < |card| => DigitOf(card[i]))
  }

  predicate AreDigits(d: seq<int>) {
    forall i | 0 <= i < |d| :: 0 <= d[i] <= 9
  }

  /** What a digit adds to the sum, `place` places from the right. */
  function Contribution(place: nat, digit: int): int {
    if place % 2 == 0 then digit else if digit * 2 > 9 then digit * 2 - 9 else digit * 2
  }

  function LuhnSum(d: seq<int>): int {
    if d == [] then 0 else Contribution(|d| - 1, d[0]) + LuhnSum(d[1..])
  }

  predicate AllZero(card: string) {
    forall i | 0 <= i < |card| :: card[i] == '0'
  }

  /** What `isValidCardNumber` accepts. */
  predicate Accepted(value: string) {
    var card := Normalize(value);
    && |card| == 16 && AllDigits(card) && !AllZero(card)
    && LuhnSum(Digits(card)) % 10 == 0
  }

  method IsValidCardNumber(value: string) returns (valid: bool)
    ensures valid == Accepted(value)
  {
    var card := Normalize(value);
    if |card| != 16 || !AllDigits(card) || AllZero(card) {
      return false;
    }
    ghost var d := Digits(card);
    var sum := 0;
    var i := 0;
    while i < |card|
      invariant 0 <= i <= |card|
      invariant sum == LuhnSum(d[|d| - i..])
    {
      var digit := DigitOf(card[|card| - 1 - i]);
      if i % 2 == 1 {
        digit := digit * 2;
        if digit > 9 {
          digit := digit - 9;
        }
      }
      sum := sum + digit;
      assert d[|d| - 1 - i..][1..] == d[|d| - i..];
      i := i + 1;
    }
    assert d[0..] == d;
    return sum % 10 == 0;
  }

  // ---- what the sum detects, for numbers of any length ----

  lemma {:induction false} SumAfterChange(d: seq<int>, k: nat, digit: int)
    requires k < |d|
    ensures LuhnSum(d[k := digit]) ==
      LuhnSum(d) - Contribution(|d| - 1 - k, d[k]) + Contribution(|d| - 1 - k, digit)
  {
    if k == 0 {
      assert d[0 := digit][1..] == d[1..];
    } else {
      assert d[k := digit][1..] == d[1..][k - 1 := digit];
      SumAfterChange(d[1..], k - 1, digit);
    }
  }

  /** Adding at most nine either way leaves the last decimal digit alone only when nothing is added. */
  lemma ModShift(sum: int, diff: int)
    requires -9 <= diff <= 9
    ensures (sum + diff) % 10 == sum % 10 <==> diff == 0
  {
  }

  lemma ContributionIsInjective(place: nat, a: int, b: int)
    requires 0 <= a <= 9 && 0 <= b <= 9
    ensures var diff := Contribution(place, b) - Contribution(place, a);
            -9 <= diff <= 9 && (diff == 0 <==> a == b)
  {
  }

  /** Changing one digit always changes the sum modulo ten. */
  lemma DetectsChange(d: seq<int>, k: nat, digit: int)
    requires AreDigits(d) && k < |d| && 0 <= digit <= 9
    ensures LuhnSum(d[k := digit]) % 10 == LuhnSum(d) % 10 <==> digit == d[k]
  {
    var place := |d| - 1 - k;
    SumAfterChange(d, k, digit);
    ContributionIsInjective(place, d[k], digit);
    ModShift(LuhnSum(d), Contribution(place, digit) - Contribution(place, d[k]));
  }

  function Swapped(d: seq<int>, k: nat): seq<int>
    requires k + 1 < |d|
  {
    d[k := d[k + 1]][k + 1 := d[k]]
  }

  /** What swapping `a`, at the place above, with `b` adds to the sum. */
  function SwapGain(a: int, b: int, place: nat): int {
    Contribution(place + 1, b) - Contribution(place + 1, a) + Contribution(place, a) - Contribution(place, b)
  }

  lemma SumAfterSwap(d: seq<int>, k: nat, place: nat)
    requires |d| == k + place + 2
    ensures LuhnSum(Swapped(d, k)) == LuhnSum(d) + SwapGain(d[k], d[k + 1], place)
  {
    var once := d[k := d[k + 1]];
    SumAfterChange(d, k, d[k + 1]);
    SumAfterChange(once, k + 1, d[k]);
    assert |d| - 1 - k == place + 1 && |once| - 1 - (k + 1) == place && once[k + 1] == d[k + 1];
  }

  predicate IsZeroAndNine(a: int, b: int) {
    (a == 0 && b == 9) || (a == 9 && b == 0)
  }

  lemma SwapTable(a: int, b: int, place: nat)
    requires 0 <= a <= 9 && 0 <= b <= 9
    ensures -9 <= SwapGain(a, b, place) <= 9
    ensures SwapGain(a, b, place) == 0 <==> a == b || IsZeroAndNine(a, b)
  {
  }

  lemma SwapShift(d: seq<int>, k: nat) returns (gain: int)
    requires AreDigits(d) && k + 1 < |d|
    ensures LuhnSum(Swapped(d, k)) == LuhnSum(d) + gain && -9 <= gain <= 9
    ensures gain == 0 <==> d[k] == d[k + 1] || IsZeroAndNine(d[k], d[k + 1])
  {
    var place := |d| - 2 - k;
    SumAfterSwap(d, k, place);
    SwapTable(d[k], d[k + 1], place);
    gain := SwapGain(d[k], d[k + 1], place);
  }

  /** Swapping adjacent digits goes unnoticed exactly when they are equal, or are 0 and 9. */
  lemma DetectsSwap(d: seq<int>, k: nat)
    requires AreDigits(d) && k + 1 < |d|
    ensures LuhnSum(Swapped(d, k)) % 10 == LuhnSum(d) % 10 <==> d[k] == d[k + 1] || IsZeroAndNine(d[k], d[k + 1])
  {
    var gain := SwapShift(d, k);
    ModShift(LuhnSum(d), gain);
  }

  lemma SumWithCheckDigit(prefix: seq<int>, digit: int)
    ensures LuhnSum(prefix + [digit]) == LuhnSum(prefix + [0]) + digit
  {
    assert (prefix + [0])[|prefix| := digit] == prefix + [digit];
    SumAfterChange(prefix + [0], |prefix|, digit);
  }

  lemma CompletesToTen(sum: int, digit: int)
    requires 0 <= digit <= 9
    ensures (sum + digit) % 10 == 0 <==> digit == (10 - sum % 10) % 10
  {
  }

  /** Every prefix has exactly one check digit. */
  lemma CheckDigitIsUnique(prefix: seq<int>) returns (check: int)
    requires AreDigits(prefix)
    ensures 0 <= check <= 9
    ensures forall digit | 0 <= digit <= 9 :: LuhnSum(prefix + [digit]) % 10 == 0 <==> digit == check
  {
    var sum := LuhnSum(prefix + [0]);
    check := (10 - sum % 10) % 10;
    forall digit | 0 <= digit <= 9 ensures LuhnSum(prefix + [digit]) % 10 == 0 <==> digit == check {
      SumWithCheckDigit(prefix, digit);
      CompletesToTen(sum, digit);
    }
  }

  // ---- cards ----

  lemma {:induction false} NormalizeDigits(card: string)
    requires AllDigits(card)
    ensures Normalize(card) == card
  {
    if card != "" {
      assert IsDigit(card[0]);
      NormalizeDigits(card[1..]);
      assert [card[0]] + card[1..] == card;
    }
  }

  /** Normalizing works piece by piece. */
  lemma {:induction false} NormalizeJoins(a: string, b: string)
    ensures Normalize(a + b) == Normalize(a) + Normalize(b)
  {
    if a == "" {
      assert a + b == b;
    } else {
      assert (a + b)[1..] == a[1..] + b;
      NormalizeJoins(a[1..], b);
    }
  }

  /** A separator anywhere in the text makes no difference. */
  lemma SeparatorsDoNotMatter(before: string, separator: char, after: string)
    requires IsSeparator(separator)
    ensures Accepted(before + [separator] + after) <==> Accepted(before + after)
  {
    NormalizeJoins(before + [separator], after);
    NormalizeJoins(before, [separator]);
    NormalizeJoins(before, after);
    assert Normalize([separator]) == "";
    assert Normalize(before + [separator] + after) == Normalize(before + after);
  }

  lemma ChangedIsText(card: string, k: nat, c: char)
    requires k < |card| && AllDigits(card) && IsDigit(c)
    ensures AllDigits(card[k := c]) && Digits(card[k := c]) == Digits(card)[k := DigitOf(c)]
  {
  }

  /** An accepted card with one digit changed is not accepted. */
  lemma CardDetectsChange(card: string, k: nat, c: char)
    requires |card| == 16 && AllDigits(card) && Accepted(card)
    requires k < 16 && IsDigit(c) && c != card[k]
    ensures !Accepted(card[k := c])
  {
    NormalizeDigits(card);
    ChangedIsText(card, k, c);
    NormalizeDigits(card[k := c]);
    DetectsChange(Digits(card), k, DigitOf(c));
  }

  function SwappedText(card: string, k: nat): string
    requires k + 1 < |card|
  {
    card[k := card[k + 1]][k + 1 := card[k]]
  }

  lemma SwappedIsACard(card: string, k: nat)
    requires k + 1 < |card| && AllDigits(card) && !AllZero(card)
    ensures AllDigits(SwappedText(card, k)) && !AllZero(SwappedText(card, k))
    ensures Digits(SwappedText(card, k)) == Swapped(Digits(card), k)
  {
    var i :| 0 <= i < |card| && card[i] != '0';
    assert SwappedText(card, k)[if i == k then k + 1 else if i == k + 1 then k else i] != '0';
  }

  /** An accepted card with two adjacent digits swapped is accepted exactly when the digits are
      equal, or are 0 and 9. */
  lemma CardDetectsSwap(card: string, k: nat)
    requires |card| == 16 && AllDigits(card) && Accepted(card) && k + 1 < 16
    ensures Accepted(SwappedText(card, k)) <==>
      card[k] == card[k + 1] || IsZeroAndNine(DigitOf(card[k]), DigitOf(card[k + 1]))
  {
    NormalizeDigits(card);
    SwappedIsACard(card, k);
    NormalizeDigits(SwappedText(card, k));
    DetectsSwap(Digits(card), k);
  }

  /** Each prefix of fifteen digits is completed to an accepted card by exactly one digit, unless
      it is all zeros: then by none. */
  lemma CardHasOneCheckDigit(prefix: string) returns (check: char)
    requires |prefix| == 15 && AllDigits(prefix)
    ensures IsDigit(check)
    ensures forall c: char | IsDigit(c) :: Accepted(prefix + [c]) <==> c == check && !AllZero(prefix)
  {
    var d := CheckDigitIsUnique(Digits(prefix));
    check := DigitChar(d);
    forall c: char | IsDigit(c) ensures Accepted(prefix + [c]) <==> c == check && !AllZero(prefix) {
      var card := prefix + [c];
      var digit := DigitOf(c);
      assert AllDigits(card);
      NormalizeDigits(card);
      assert Digits(card) == Digits(prefix) + [digit];
      assert LuhnSum(Digits(prefix) + [digit]) % 10 == 0 <==> digit == d;
      if AllZero(prefix) {
        assert forall i | 0 <= i < 15 :: Digits(prefix)[i] == 0;
        ZeroSum(Digits(prefix) + [0]);
        assert LuhnSum(Digits(prefix) + [0]) % 10 == 0;
        assert d == 0;
        assert c == '0' ==> AllZero(card);
      } else {
        var i :| 0 <= i < 15 && prefix[i] != '0';
        assert card[i] != '0';
      }
    }
  }

  lemma {:induction false} ZeroSum(d: seq<int>)
    requires forall i | 0 <= i < |d| :: d[i] == 0
    ensures LuhnSum(d) == 0
  {
    if d != [] {
      ZeroSum(d[1..]);
    }
  }
}
