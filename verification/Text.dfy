/** Characters, decimal numerals and the few string operations the services use on them. */
module Text {

  predicate IsDigit(c: char) {
    '0' <= c <= '9'
  }

  /** White space as ECMAScript trims it and as its regular expressions match it. */
  predicate IsSpace(c: char) {
    || c == ' ' || '\t' <= c <= '\r' || c == '\U{A0}' || c == '\U{1680}'
    || '\U{2000}' <= c <= '\U{200A}' || c == '\U{2028}' || c == '\U{2029}'
    || c == '\U{202F}' || c == '\U{205F}' || c == '\U{3000}' || c == '\U{FEFF}'
  }

  predicate AllDigits(s: string) {
    forall i | 0 <= i < |s| :: IsDigit(s[i])
  }

  function DigitOf(c: char): (d: int)
    ensures IsDigit(c) ==> 0 <= d <= 9
  {
    c as int - '0' as int
  }

  function DigitChar(d: nat): (c: char)
    requires d <= 9
    ensures IsDigit(c) && DigitOf(c) == d
  {
    ('0' as int + d) as char
  }

  /** What is left of a text without its non-digits. */
  function KeepDigits(s: string): (r: string)
    ensures AllDigits(r)
  {
    if s == "" then "" else (if IsDigit(s[0]) then [s[0]] else "") + KeepDigits(s[1..])
  }

  lemma {:induction false} KeepDigitsJoins(a: string, b: string)
    ensures KeepDigits(a + b) == KeepDigits(a) + KeepDigits(b)
  {
    if a == "" {
      assert a + b == b;
    } else {
      assert (a + b)[1..] == a[1..] + b;
      KeepDigitsJoins(a[1..], b);
    }
  }

  lemma {:induction false} KeepDigitsKeeps(s: string)
    requires AllDigits(s)
    ensures KeepDigits(s) == s
  {
    if s != "" {
      assert IsDigit(s[0]);
      KeepDigitsKeeps(s[1..]);
      assert [s[0]] + s[1..] == s;
    }
  }

  // ---- numerals ----

  function Pow10(n: nat): (p: nat)
    ensures p >= 1
  {
    if n == 0 then 1 else 10 * Pow10(n - 1)
  }

  function Value(s: string): nat
    requires AllDigits(s)
  {
    if s == "" then 0 else Value(s[..|s| - 1]) * 10 + DigitOf(s[|s| - 1])
  }

  /** Digits without a needless zero in front. */
  predicate Numeral(s: string) {
    s != "" && AllDigits(s) && (s[0] == '0' ==> |s| == 1)
  }

  function Show(n: nat): (s: string)
    ensures Numeral(s) && Value(s) == n
  {
    if n < 10 then
      var s := [DigitChar(n)];
      assert s[..0] == "";
      s
    else
      var front := Show(n / 10);
      assert front == "0" ==> Value(front[..0]) == 0;
      assert (front + [DigitChar(n % 10)])[..|front|] == front;
      front + [DigitChar(n % 10)]
  }

  lemma {:induction false} ValueJoins(a: string, b: string)
    requires AllDigits(a) && AllDigits(b)
    ensures AllDigits(a + b) && Value(a + b) == Value(a) * Pow10(|b|) + Value(b)
  {
    if b == "" {
      assert a + b == a;
    } else {
      var front := b[..|b| - 1];
      assert (a + b)[..|a + b| - 1] == a + front;
      ValueJoins(a, front);
      Spread(Value(a), Pow10(|front|));
    }
  }

  lemma Spread(x: int, p: int)
    ensures x * (10 * p) == 10 * (x * p)
  {
  }

  lemma {:induction false} ValueFits(s: string)
    requires AllDigits(s)
    ensures Value(s) < Pow10(|s|)
  {
    if s != "" {
      ValueFits(s[..|s| - 1]);
    }
  }

  lemma {:induction false} ValueIsInjective(a: string, b: string)
    requires AllDigits(a) && AllDigits(b) && |a| == |b| && Value(a) == Value(b)
    ensures a == b
  {
    if a != "" {
      ValueIsInjective(a[..|a| - 1], b[..|b| - 1]);
      assert a == a[..|a| - 1] + [a[|a| - 1]];
      assert b == b[..|b| - 1] + [b[|b| - 1]];
    }
  }

  lemma {:induction false} ShowOfValue(s: string)
    requires Numeral(s)
    ensures Show(Value(s)) == s
  {
    var front := s[..|s| - 1];
    if front == "" {
      assert s == [s[0]];
    } else {
      assert Numeral(front);
      ShowOfValue(front);
      PositiveNumeral(front);
      assert s == front + [s[|s| - 1]];
    }
  }

  lemma {:induction false} PositiveNumeral(s: string)
    requires s != "" && AllDigits(s) && s[0] != '0'
    ensures Value(s) > 0
  {
    if |s| > 1 {
      PositiveNumeral(s[..|s| - 1]);
    }
  }

  lemma {:induction false} ShowFits(n: nat, width: nat)
    requires width >= 1 && n < Pow10(width)
    ensures |Show(n)| <= width
  {
    if n >= 10 {
      ShowFits(n / 10, width - 1);
    }
  }

  function Zeros(n: nat): (s: string)
    ensures |s| == n && AllDigits(s) && Value(s) == 0
  {
    if n == 0 then ""
    else
      assert (Zeros(n - 1) + "0")[..n - 1] == Zeros(n - 1);
      Zeros(n - 1) + "0"
  }

  function PadStart(s: string, width: nat): string {
    if |s| < width then Zeros(width - |s|) + s else s
  }

  lemma PadStartKeepsValue(s: string, width: nat)
    requires AllDigits(s)
    ensures AllDigits(PadStart(s, width)) && Value(PadStart(s, width)) == Value(s)
    ensures |PadStart(s, width)| == if |s| < width then width else |s|
  {
    if |s| < width {
      ValueJoins(Zeros(width - |s|), s);
    }
  }

  // ---- division by a variable ----

  function Over(a: nat, base: nat): nat
    requires base >= 1
  {
    a / base
  }

  function Rest(a: nat, base: nat): (r: nat)
    requires base >= 1
    ensures r < base && a == Over(a, base) * base + r
  {
    a % base
  }

  lemma ProductGrows(a: int, b: int, base: nat)
    requires a <= b
    ensures a * base <= b * base
  {
  }

  lemma SameDivision(a: nat, b: nat, base: nat, x: nat, y: nat)
    requires x < base && y < base && a * base + x == b * base + y
    ensures a == b && x == y
  {
    if a < b {
      ProductGrows(a + 1, b, base);
    } else if b < a {
      ProductGrows(b + 1, a, base);
    }
  }

  // ---- searching ----

  /** The place of the first `c`, or the length. */
  function IndexOf(s: string, c: char): (i: nat)
    ensures i <= |s| && (forall j | 0 <= j < i :: s[j] != c)
    ensures i < |s| ==> s[i] == c
  {
    if s == "" || s[0] == c then 0 else 1 + IndexOf(s[1..], c)
  }

  lemma IndexOfFirst(a: string, c: char, b: string)
    requires forall j | 0 <= j < |a| :: a[j] != c
    ensures IndexOf(a, c) == |a| && IndexOf(a + [c] + b, c) == |a|
  {
    assert (a + [c] + b)[|a|] == c;
  }

  /** Whether trimmed text starts with `c`. */
  predicate TrimmedStartsWith(s: string, c: char)
    requires !IsSpace(c)
  {
    s != "" && (s[0] == c || (IsSpace(s[0]) && TrimmedStartsWith(s[1..], c)))
  }

  // ---- trimming ----

  function TrimStart(s: string): string {
    if s != "" && IsSpace(s[0]) then TrimStart(s[1..]) else s
  }

  function TrimEnd(s: string): string {
    if s != "" && IsSpace(s[|s| - 1]) then TrimEnd(s[..|s| - 1]) else s
  }

  function Trim(s: string): string {
    TrimEnd(TrimStart(s))
  }

  lemma TrimKeeps(s: string)
    requires s != "" && !IsSpace(s[0]) && !IsSpace(s[|s| - 1])
    ensures Trim(s) == s
  {
  }

  predicate StartsWith(line: string, start: string) {
    |line| >= |start| && line[..|start|] == start
  }

  lemma {:induction false} TrimStartTo(s: string, n: nat)
    requires n < |s| && !IsSpace(s[n]) && forall i | 0 <= i < n :: IsSpace(s[i])
    ensures TrimStart(s) == s[n..]
  {
    if n > 0 {
      TrimStartTo(s[1..], n - 1);
    }
  }

  lemma JoinStarts(start: string, rest: string)
    ensures StartsWith(start + rest, start) && (start + rest)[|start|..] == rest
  {
  }

  lemma NotStart(line: string, start: string, i: nat)
    requires i < |start| && i < |line| && line[i] != start[i]
    ensures !StartsWith(line, start)
  {
    assert |line| >= |start| ==> line[..|start|][i] == line[i];
  }

  lemma {:induction false} TrimEndIsPrefix(s: string)
    ensures StartsWith(s, TrimEnd(s))
  {
    if s != "" && IsSpace(s[|s| - 1]) {
      TrimEndIsPrefix(s[..|s| - 1]);
    }
  }

  lemma {:induction false} TrimStartTwice(s: string)
    ensures TrimStart(TrimStart(s)) == TrimStart(s)
  {
    if s != "" && IsSpace(s[0]) {
      TrimStartTwice(s[1..]);
    }
  }
}
