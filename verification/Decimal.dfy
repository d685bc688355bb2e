/** Decimal numerals as the Lua scripts handle them: byte strings compared, checked
    and incremented digit by digit.  One `char` stands for one byte. */
module Decimal {

  const MAX_U64_VALUE: nat := 18446744073709551615
  const MAX_U64: string := "18446744073709551615"

  predicate IsDigit(c: char) {
    '0' <= c <= '9'
  }

  predicate AllDigits(s: string) {
    forall i :: 0 <= i < |s| ==> IsDigit(s[i])
  }

  /** No sign, no leading zero: the texts matched by `^0$` or `^[1-9][0-9]*$`. */
  predicate Canonical(s: string) {
    s == "0" || (s != "" && s[0] != '0' && AllDigits(s))
  }

  function Digit(c: char): nat
    requires IsDigit(c)
  {
    c as int - '0' as int
  }

  function DigitChar(d: nat): (c: char)
    requires d < 10
    ensures IsDigit(c) && Digit(c) == d
  {
    ('0' as int + d) as char
  }

  function Value(s: string): nat
    requires AllDigits(s)
  {
    if s == "" then 0 else 10 * Value(s[..|s| - 1]) + Digit(s[|s| - 1])
  }

  function Numeral(n: nat): (s: string)
    ensures Canonical(s) && AllDigits(s) && Value(s) == n
    ensures n > 0 ==> s[0] != '0'
  {
    if n < 10 then
      assert [DigitChar(n)][..0] == "";
      [DigitChar(n)]
    else
      var s := Numeral(n / 10) + [DigitChar(n % 10)];
      assert s[..|s| - 1] == Numeral(n / 10);
      s
  }

  function Pow10(k: nat): (p: nat)
    ensures p > 0
  {
    if k == 0 then 1 else 10 * Pow10(k - 1)
  }

  lemma {:induction false} ValueBound(s: string)
    requires AllDigits(s)
    ensures Value(s) < Pow10(|s|)
  {
    if s != "" { ValueBound(s[..|s| - 1]); }
  }

  lemma {:induction false} ValueConcat(a: string, b: string)
    requires AllDigits(a) && AllDigits(b)
    ensures AllDigits(a + b)
    ensures Value(a + b) == Value(a) * Pow10(|b|) + Value(b)
  {
    if b == "" {
      assert a + b == a;
    } else {
      var b' := b[..|b| - 1];
      assert (a + b)[..|a + b| - 1] == a + b';
      ValueConcat(a, b');
      assert Value(a) * Pow10(|b|) == 10 * (Value(a) * Pow10(|b'|));
    }
  }

  lemma ValueCons(c: char, s: string)
    requires IsDigit(c) && AllDigits(s)
    ensures AllDigits([c] + s)
    ensures Value([c] + s) == Digit(c) * Pow10(|s|) + Value(s)
  {
    ValueConcat([c], s);
    OneDigit(c);
  }

  lemma OneDigit(c: char)
    requires IsDigit(c)
    ensures AllDigits([c]) && Value([c]) == Digit(c)
  {
    assert [c][..0] == "";
  }

  lemma TimesAtLeast(d: nat, p: nat)
    requires d >= 1
    ensures d * p >= p
  {
  }

  /** A nonzero leading digit makes a text worth at least a power of ten. */
  lemma LeadingDigit(s: string)
    requires s != "" && AllDigits(s) && s[0] != '0'
    ensures Pow10(|s| - 1) <= Value(s)
  {
    assert s == [s[0]] + s[1..];
    ValueCons(s[0], s[1..]);
    TimesAtLeast(Digit(s[0]), Pow10(|s| - 1));
  }

  lemma {:induction false} Pow10Monotone(a: nat, b: nat)
    requires a <= b
    ensures Pow10(a) <= Pow10(b)
  {
    if a < b { Pow10Monotone(a, b - 1); }
  }

  /** Each natural number has exactly one canonical text. */
  lemma {:induction false} CanonicalIsNumeral(s: string)
    requires Canonical(s)
    ensures AllDigits(s) && s == Numeral(Value(s))
  {
    if |s| <= 1 {
      assert s[..0] == "";
      assert Value(s) == Digit(s[0]);
      assert Numeral(Value(s)) == [DigitChar(Digit(s[0]))];
    } else {
      var p := s[..|s| - 1];
      CanonicalIsNumeral(p);
      LeadingDigit(s);
      Pow10Monotone(1, |s| - 1);
      assert Value(s) / 10 == Value(p) && Value(s) % 10 == Digit(s[|s| - 1]);
      assert s == p + [s[|s| - 1]];
    }
  }

  /** Lua's `<` on strings: the first differing byte decides. */
  predicate Less(a: string, b: string) {
    b != "" && (a == "" || a[0] < b[0] || (a[0] == b[0] && Less(a[1..], b[1..])))
  }

  /** `decimal_compare`. */
  function Compare(left: string, right: string): int {
    if |left| != |right| then if |left| < |right| then -1 else 1
    else if left == right then 0
    else if Less(left, right) then -1 else 1
  }

  /** Two-digit lexicographic order: unequal leading digits outweigh any tails. */
  lemma LeadingDecides(d: nat, e: nat, p: nat, x: nat, y: nat)
    requires d < e && x < p
    ensures d * p + x < e * p + y
  {
    assert (d + 1) * p <= e * p;
  }

  lemma {:induction false} LessIsOrder(a: string, b: string)
    requires |a| == |b| && AllDigits(a) && AllDigits(b)
    ensures Less(a, b) <==> Value(a) < Value(b)
    ensures a == b <==> Value(a) == Value(b)
  {
    if a != "" {
      var c, d, a', b' := a[0], b[0], a[1..], b[1..];
      assert a == [c] + a' && b == [d] + b';
      ValueCons(c, a');
      ValueCons(d, b');
      ValueBound(a');
      ValueBound(b');
      if c < d {
        LeadingDecides(Digit(c), Digit(d), Pow10(|a'|), Value(a'), Value(b'));
      } else if d < c {
        LeadingDecides(Digit(d), Digit(c), Pow10(|a'|), Value(b'), Value(a'));
      } else {
        LessIsOrder(a', b');
      }
    }
  }

  /** On canonical texts of any length `decimal_compare` is the order of the naturals. */
  lemma CompareIsOrder(a: string, b: string)
    requires Canonical(a) && Canonical(b)
    ensures Compare(a, b) < 0 <==> Value(a) < Value(b)
    ensures Compare(a, b) == 0 <==> Value(a) == Value(b)
    ensures Compare(a, b) > 0 <==> Value(a) > Value(b)
    ensures a == b <==> Value(a) == Value(b)
  {
    if |a| == |b| {
      LessIsOrder(a, b);
    } else if |a| < |b| {
      ShorterIsSmaller(a, b);
    } else {
      ShorterIsSmaller(b, a);
    }
  }

  lemma ShorterIsSmaller(a: string, b: string)
    requires Canonical(a) && Canonical(b) && |a| < |b|
    ensures Value(a) < Value(b)
  {
    ValueBound(a);
    LeadingDigit(b);
    Pow10Monotone(|a|, |b| - 1);
  }

  /** `valid_u64`. */
  predicate ValidU64(value: string) {
    Canonical(value) &&
    (|value| < |MAX_U64| || (|value| == |MAX_U64| && Compare(value, MAX_U64) <= 0))
  }

  lemma ValuePrefix(s: string, k: nat)
    requires k < |s| && AllDigits(s)
    ensures Value(s[..k + 1]) == 10 * Value(s[..k]) + Digit(s[k])
  {
    assert s[..k + 1][..k] == s[..k];
  }

  lemma FourDigits(s: string, k: nat, v: nat, d: nat)
    requires k + 4 <= |s| && AllDigits(s) && Value(s[..k]) == v
    requires d == 1000 * Digit(s[k]) + 100 * Digit(s[k + 1]) + 10 * Digit(s[k + 2]) + Digit(s[k + 3])
    ensures Value(s[..k + 4]) == 10000 * v + d
  {
    ValuePrefix(s, k);
    ValuePrefix(s, k + 1);
    ValuePrefix(s, k + 2);
    ValuePrefix(s, k + 3);
  }

  lemma MaxU64Front()
    ensures Canonical(MAX_U64) && AllDigits(MAX_U64) && Value(MAX_U64[..8]) == 18446744
  {
    FourDigits(MAX_U64, 0, 0, 1844);
    FourDigits(MAX_U64, 4, 1844, 6744);
  }

  lemma MaxU64Text()
    ensures Canonical(MAX_U64) && Value(MAX_U64) == MAX_U64_VALUE
  {
    MaxU64Front();
    FourDigits(MAX_U64, 8, 18446744, 737);
    FourDigits(MAX_U64, 12, 184467440737, 955);
    FourDigits(MAX_U64, 16, 1844674407370955, 1615);
    assert MAX_U64[..20] == MAX_U64;
  }

  /** `valid_u64` accepts exactly the canonical texts of the 64-bit naturals. */
  lemma ValidU64IsRange(s: string)
    ensures ValidU64(s) <==> Canonical(s) && Value(s) <= MAX_U64_VALUE
  {
    MaxU64Text();
    if Canonical(s) {
      CompareIsOrder(s, MAX_U64);
      if |s| > |MAX_U64| { ShorterIsSmaller(MAX_U64, s); }
      if |s| < |MAX_U64| { ShorterIsSmaller(s, MAX_U64); }
    }
  }

  /** What the scripts know about a text they have accepted. */
  lemma AcceptedText(s: string)
    requires ValidU64(s)
    ensures AllDigits(s) && s == Numeral(Value(s)) && Value(s) <= MAX_U64_VALUE
    ensures s == "0" <==> Value(s) == 0
  {
    ValidU64IsRange(s);
    CanonicalIsNumeral(s);
    assert "0"[..0] == "" && Value("0") == 0;
    CompareIsOrder(s, "0");
  }

  /** The text of the next number: a trailing nine becomes a zero and carries. */
  function Successor(s: string): string
    requires AllDigits(s)
  {
    if s == "" then "1"
    else
      var front, last := s[..|s| - 1], s[|s| - 1];
      if last == '9' then Successor(front) + "0" else front + [DigitChar(Digit(last) + 1)]
  }

  lemma Snoc(s: string, c: char)
    requires AllDigits(s) && IsDigit(c)
    ensures AllDigits(s + [c]) && Value(s + [c]) == 10 * Value(s) + Digit(c)
  {
    assert (s + [c])[..|s|] == s;
  }

  lemma {:induction false} SuccessorIsNext(s: string)
    requires AllDigits(s)
    ensures AllDigits(Successor(s)) && Value(Successor(s)) == Value(s) + 1
    ensures s == "" || Canonical(s) ==> Successor(s) != "" && Successor(s)[0] != '0'
  {
    if s == "" {
      Snoc("", '1');
    } else {
      var front, last := s[..|s| - 1], s[|s| - 1];
      SuccessorIsNext(front);
      if last == '9' { Snoc(Successor(front), '0'); } else { Snoc(front, DigitChar(Digit(last) + 1)); }
    }
  }

  /** The digits from `index` on are rewritten to `chars`, and a carry is left over or not. */
  predicate Rewritten(value: string, index: nat, chars: string, carry: nat) {
    && index <= |value| && AllDigits(value) && carry <= 1
    && (if carry == 1 then Successor(value[..index]) else value[..index]) + chars == Successor(value)
  }

  lemma Regroup(a: string, c: char, b: string)
    ensures (a + [c]) + b == a + ([c] + b)
  {
  }

  lemma RewriteTurn(value: string, index: nat, chars: string, carry: nat)
    requires index > 0 && Rewritten(value, index, chars, carry)
    ensures
      var digit := Digit(value[index - 1]) + carry;
      if digit == 10 then Rewritten(value, index - 1, ['0'] + chars, carry)
      else Rewritten(value, index - 1, [DigitChar(digit)] + chars, 0)
  {
    var front, c := value[..index - 1], value[index - 1];
    assert value[..index] == front + [c] && value[..index][..index - 1] == front;
    if carry == 1 && c == '9' {
      Regroup(Successor(front), '0', chars);
    } else {
      Regroup(front, DigitChar(Digit(c) + carry), chars);
    }
  }

  /** `decimal_increment`: digits are rewritten from the right until the carry is spent. */
  method Increment(value: string) returns (r: string)
    requires AllDigits(value)
    ensures AllDigits(r) && Value(r) == Value(value) + 1
    ensures Canonical(value) ==> r == Numeral(Value(value) + 1)
  {
    var chars := "";
    var carry := 1;
    var index := |value|;
    assert value[..index] == value;
    while index > 0
      invariant 0 <= index <= |value| && 0 <= carry
      invariant Rewritten(value, index, chars, carry)
    {
      RewriteTurn(value, index, chars, carry);
      index := index - 1;
      var digit := Digit(value[index]) + carry;
      if digit == 10 {
        chars := ['0'] + chars;
      } else {
        chars := [DigitChar(digit)] + chars;
        carry := 0;
      }
    }
    if carry == 1 {
      chars := ['1'] + chars;
    }
    r := chars;
    IncrementEnds(value, r);
  }

  lemma IncrementEnds(value: string, r: string)
    requires AllDigits(value) && r == Successor(value)
    ensures AllDigits(r) && Value(r) == Value(value) + 1
    ensures Canonical(value) ==> r == Numeral(Value(value) + 1)
  {
    SuccessorIsNext(value);
    if Canonical(value) { CanonicalIsNumeral(r); }
  }
}
