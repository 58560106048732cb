// Numerals: the digits of a number in a base, and the value of a string of digits.
module Digits {

  import opened Words

  function DigitChar(d: int): (c: char)
    requires 0 <= d < 16
  {
    "0123456789abcdef"[d]
  }

  // The value of c as a digit, or 36 if it is none in any base.
  function DigitValue(c: char): (d: int)
    ensures 0 <= d <= 36
  {
    if '0' <= c <= '9' then c as int - '0' as int
    else if 'a' <= c <= 'z' then c as int - 'a' as int + 10
    else if 'A' <= c <= 'Z' then c as int - 'A' as int + 10
    else 36
  }

  // The digits and the letters in either case have a value, and nothing else.
  lemma DigitsMean(c: char, d: int)
    requires 0 <= d < 36
    ensures DigitValue(c) == d <==>
      if d < 10 then c as int == '0' as int + d else c as int == 'a' as int + d - 10 || c as int == 'A' as int + d - 10
  {}

  lemma DigitCharValue(d: int)
    requires 0 <= d < 16
    ensures DigitValue(DigitChar(d)) == d
  {}

  predicate AllDigits(s: string, base: int) {
    forall i :: 0 <= i < |s| ==> DigitValue(s[i]) < base
  }

  predicate LowerCase(s: string) {
    forall i :: 0 <= i < |s| ==> '0' <= s[i] <= '9' || 'a' <= s[i] <= 'f'
  }

  // One more digit.
  function Append(s: string, d: int, base: int): (r: string)
    requires AllDigits(s, base) && 0 <= d < base <= 16
    ensures |r| == |s| + 1 && AllDigits(r, base)
  {
    DigitCharValue(d);
    s + [DigitChar(d)]
  }

  lemma Smaller(u: int, base: int)
    requires 0 <= u && 2 <= base
    ensures 0 <= u % base < base && 0 <= u / base && (u >= base ==> u / base < u)
  {
    Euclid(u, base);
  }

  // Digits of u, most significant first.
  function Numeral(u: int, base: int): (s: string)
    requires 0 <= u && 2 <= base <= 16
    ensures |s| >= 1 && AllDigits(s, base)
  {
    Smaller(u, base);
    Append(if u < base then [] else Numeral(u / base, base), u % base, base)
  }

  // The digits above 9 are small letters.
  lemma {:induction false} NumeralLower(u: int, base: int)
    requires 0 <= u && 2 <= base <= 16
    ensures LowerCase(Numeral(u, base))
    decreases u
  {
    NumeralStep(u, base);
    if u >= base {
      NumeralLower(u / base, base);
    }
  }

  function Value(s: string, base: int): int {
    if s == [] then 0 else Value(s[..|s| - 1], base) * base + DigitValue(s[|s| - 1])
  }

  lemma NumeralStep(u: int, base: int)
    requires 0 <= u && 2 <= base <= 16
    ensures u < base ==> Numeral(u, base) == [DigitChar(u)]
    ensures u >= base ==> 0 < u / base < u && Numeral(u, base) == Numeral(u / base, base) + [DigitChar(u % base)]
  {
    if u < base {
      QuotientIs(u, base, 0, u);
    } else {
      Scale(u, 1, base - 1);
      QuotientBetween(u, base, 1, u);
    }
  }

  lemma ValueSnoc(s: string, c: char, base: int)
    ensures Value(s + [c], base) == Value(s, base) * base + DigitValue(c)
  {
    assert (s + [c])[..|s|] == s;
  }

  lemma {:induction false} NumeralValue(u: int, base: int)
    requires 0 <= u && 2 <= base <= 16
    ensures Value(Numeral(u, base), base) == u
  {
    hide Numeral, Value, DigitValue;
    NumeralStep(u, base);
    ValueNothing(base);
    if u < base {
      ValueSnoc([], DigitChar(u), base);
      DigitCharValue(u);
      assert [] + [DigitChar(u)] == [DigitChar(u)];
    } else {
      Euclid(u, base);
      DigitCharValue(u % base);
      NumeralValue(u / base, base);
      ValueSnoc(Numeral(u / base, base), DigitChar(u % base), base);
    }
  }

  lemma ValueNothing(base: int)
    ensures Value([], base) == 0
  {}

  function Repeat(c: char, n: int): (s: string)
    ensures |s| == if n > 0 then n else 0
    ensures forall i :: 0 <= i < |s| ==> s[i] == c
  {
    if n <= 0 then [] else Repeat(c, n - 1) + [c]
  }

  lemma {:induction false} RepeatAdd(c: char, m: nat, n: nat)
    ensures Repeat(c, m) + Repeat(c, n) == Repeat(c, m + n)
  {
    if n > 0 {
      RepeatAdd(c, m, n - 1);
      assert Repeat(c, m) + (Repeat(c, n - 1) + [c]) == Repeat(c, m) + Repeat(c, n - 1) + [c];
    }
  }

  // Leading zeros do not count.
  lemma {:induction false} ZerosValue(n: int, s: string, base: int)
    ensures Value(Repeat('0', n) + s, base) == Value(s, base)
  {
    if s != [] {
      var t, c := s[..|s| - 1], s[|s| - 1];
      ZerosValue(n, t, base);
      assert s == t + [c] && Repeat('0', n) + s == Repeat('0', n) + t + [c];
      ValueSnoc(t, c, base);
      ValueSnoc(Repeat('0', n) + t, c, base);
    } else {
      assert Repeat('0', n) + s == Repeat('0', n);
      OnlyZeros(n, base);
    }
  }

  lemma {:induction false} OnlyZeros(n: int, base: int)
    ensures Value(Repeat('0', n), base) == 0
  {
    if n > 0 {
      OnlyZeros(n - 1, base);
      ValueSnoc(Repeat('0', n - 1), '0', base);
    }
  }

  // A numeral of more than one digit does not begin with 0.
  lemma {:induction false} NumeralFirst(u: int, base: int)
    requires 0 <= u && 2 <= base <= 16
    ensures u > 0 ==> Numeral(u, base)[0] != '0'
    ensures u == 0 ==> Numeral(u, base) == "0"
    ensures 'x' !in Numeral(u, base) && 'X' !in Numeral(u, base)
  {
    NumeralStep(u, base);
    if u >= base {
      NumeralFirst(u / base, base);
    }
  }
}
