// strtoul and strtol, and their agreement with the number printer.
module NumberParser {

  import opened Digits
  import opened NumberPrinter
  import opened Words

  predicate IsSpace(c: char): (r: bool)
    ensures r <==> c == ' ' || 9 <= c as int <= 13
  {
    c == ' ' || c as int == 12 || c == '\n' || c == '\r' || c == '\t' || c as int == 11
  }

  // ---- What the two functions read

  function SkipSpaces(s: string, i: nat): (j: nat)
    requires i <= |s|
    ensures i <= j <= |s|
    decreases |s| - i
  {
    if i < |s| && IsSpace(s[i]) then SkipSpaces(s, i + 1) else i
  }

  // Where the digits begin, and in which base they are.
  function AfterPrefix(s: string, i: nat, base: int): (r: (nat, int))
    requires i <= |s|
    ensures i <= r.0 <= |s|
  {
    if (base == 16 || base == 0) && CharAt(s, i) == '0' && (CharAt(s, i + 1) == 'x' || CharAt(s, i + 1) == 'X') then (i + 2, 16)
    else (i, if base != 0 then base else if CharAt(s, i) == '0' then 8 else 10)
  }

  function DigitsEnd(s: string, i: nat, base: int): (j: nat)
    requires i <= |s|
    ensures i <= j <= |s| && AllDigits(s[i..j], base) && (j < |s| ==> DigitValue(s[j]) >= base)
    decreases |s| - i
  {
    if i < |s| && DigitValue(s[i]) < base then
      var j := DigitsEnd(s, i + 1, base);
      assert s[i..j] == [s[i]] + s[i + 1..j];
      j
    else i
  }

  lemma DigitsEndIs(s: string, i: nat, base: int, j: nat)
    requires i <= j <= |s| && (forall k :: i <= k < j ==> DigitValue(s[k]) < base) && (j < |s| ==> DigitValue(s[j]) >= base)
    ensures DigitsEnd(s, i, base) == j
    decreases |s| - i
  {
    if i < j { DigitsEndIs(s, i + 1, base, j); }
  }

  lemma SkipSpacesIs(s: string, i: nat, j: nat)
    requires i <= j <= |s| && (forall k :: i <= k < j ==> IsSpace(s[k])) && (j < |s| ==> !IsSpace(s[j]))
    ensures SkipSpaces(s, i) == j
    decreases |s| - i
  {
    if i < j { SkipSpacesIs(s, i + 1, j); }
  }

  // The number and the end strtoul finds.
  function Unsigned(s: string, base: int): (r: (int, nat))
    ensures 0 <= r.0 < WORD && r.1 <= |s|
  {
    var (start, b) := AfterPrefix(s, SkipSpaces(s, 0), base);
    var end := DigitsEnd(s, start, b);
    (Value(s[start..end], b) % WORD, end)
  }

  function Signed32(x: int): int {
    var w := x % WORD;
    if w < 0x8000_0000 then w else w - WORD
  }

  // The same for strtol, which takes a minus sign but does not step over a plus.
  function SignedNumber(s: string, base: int): (r: (int, nat))
    ensures r.1 <= |s|
  {
    var i := SkipSpaces(s, 0);
    var negative := CharAt(s, i) == '-';
    var (start, b) := AfterPrefix(s, if negative then i + 1 else i, base);
    var end := DigitsEnd(s, start, b);
    var v := Value(s[start..end], b);
    (Signed32(if negative then -Signed32(v) else Signed32(v)), end)
  }

  // ---- The two functions

  method ReadDigits(s: string, start: nat, base: int) returns (v: int, p: nat)
    requires start <= |s| && base <= 36
    ensures p == DigitsEnd(s, start, base) && v == Value(s[start..p], base) % WORD
  {
    hide Value, DigitValue;
    v, p := 0, start;
    ValueNothing(base);
    assert s[start..p] == [];
    while p < |s|
      invariant start <= p <= |s| && forall k :: start <= k < p ==> DigitValue(s[k]) < base
      invariant v == Value(s[start..p], base) % WORD
    {
      var c := s[p];
      var d := ReadDigit(c, base);
      if d < 0 {
        break;
      }
      MoreDigits(s, start, p, base, v, d);
      v := (v * base + d) % WORD;
      p := p + 1;
    }
    DigitsEndIs(s, start, base, p);
  }

  // The three tests on a character; -1 when it is not a digit of the base.
  method ReadDigit(c: char, base: int) returns (d: int)
    requires base <= 36
    ensures if DigitValue(c) < base then d == DigitValue(c) else d == -1
  {
    if '0' <= c <= '9' && c as int - '0' as int < base {
      d := c as int - '0' as int;
    } else if 'a' <= c <= 'z' && c as int - 'a' as int + 10 < base {
      d := c as int - 'a' as int + 10;
    } else if 'A' <= c <= 'Z' && c as int - 'A' as int + 10 < base {
      d := c as int - 'A' as int + 10;
    } else {
      d := -1;
    }
  }

  lemma MoreDigits(s: string, start: nat, p: nat, base: int, v: int, d: int)
    requires start <= p < |s| && v == Value(s[start..p], base) % WORD && d == DigitValue(s[p])
    ensures (v * base + d) % WORD == Value(s[start..p + 1], base) % WORD
  {
    hide Value, DigitValue;
    assert s[start..p + 1] == s[start..p] + [s[p]];
    ValueSnoc(s[start..p], s[p], base);
    StepMod(Value(s[start..p], base), base, d);
  }

  lemma StepMod(x: int, b: int, d: int)
    ensures (x % WORD * b + d) % WORD == (x * b + d) % WORD
  {
    Euclid(x, WORD);
    var y := x % WORD * b + d;
    Euclid(y, WORD);
    assert x * b + d == WORD * (x / WORD * b + y / WORD) + y % WORD;
    QuotientIs(x * b + d, WORD, x / WORD * b + y / WORD, y % WORD);
  }

  // The part that both have before the digits.
  method ReadPrefix(s: string, i: nat, base: int) returns (p: nat, b: int)
    requires i <= |s| && 0 <= base <= 36
    ensures (p, b) == AfterPrefix(s, i, base) && p <= |s| && 0 < b <= 36
  {
    p, b := i, base;
    if (b == 16 || b == 0) && CharAt(s, p) == '0' && (CharAt(s, p + 1) == 'x' || CharAt(s, p + 1) == 'X') {
      p := p + 2;
      b := 16;
    }
    if b == 0 {
      if CharAt(s, p) == '0' {
        b := 8;
      } else {
        b := 10;
      }
    }
  }

  method StrToUl(s: string, base: int) returns (v: int, p: nat)
    requires 0 <= base <= 36
    ensures (v, p) == Unsigned(s, base)
  {
    hide Value, DigitsEnd, AfterPrefix;
    p := 0;
    while p < |s| && IsSpace(s[p])
      invariant 0 <= p <= |s| && SkipSpaces(s, p) == SkipSpaces(s, 0)
    {
      p := p + 1;
    }
    var b;
    p, b := ReadPrefix(s, p, base);
    v, p := ReadDigits(s, p, b);
  }

  method StrToL(s: string, base: int) returns (v: int, p: nat)
    requires 0 <= base <= 36
    ensures (v, p) == SignedNumber(s, base)
  {
    hide Value, DigitsEnd, AfterPrefix;
    p := 0;
    while p < |s| && IsSpace(s[p])
      invariant 0 <= p <= |s| && SkipSpaces(s, p) == SkipSpaces(s, 0)
    {
      p := p + 1;
    }
    var negative := false;
    if CharAt(s, p) == '-' {
      negative, p := true, p + 1;
    }
    var b;
    p, b := ReadPrefix(s, p, base);
    var w;
    w, p := ReadDigits(s, p, b);
    // the accumulator is a signed word: the same bits
    v := if w < 0x8000_0000 then w else w - WORD;
    if negative {
      v := -v;
    }
    v := Signed32(v);
  }

  // ---- Printing, then parsing

  // d is read as u in this base, and has nothing in it that could be taken for a prefix.
  ghost predicate Reads(d: string, u: int, base: int) {
    d != "" && AllDigits(d, base) && Value(d, base) == u && 'x' !in d && 'X' !in d
  }

  lemma NumeralReads(zeros: nat, u: int, base: int)
    requires 0 <= u && 2 <= base <= 16
    ensures Reads(Repeat('0', zeros) + Numeral(u, base), u, base)
  {
    NumeralFirst(u, base);
    NumeralValue(u, base);
    ZerosValue(zeros, Numeral(u, base), base);
    hide Numeral, Value;
  }

  // Blanks, then a head, then digits up to position c, then blanks.
  ghost predicate Shaped(s: string, a: nat, b: nat, c: nat, head: string, d: string) {
    && a <= b <= c <= |s| && s[a..b] == head && s[b..c] == d
    && (forall k :: 0 <= k < a ==> s[k] == ' ') && (forall k :: c <= k < |s| ==> s[k] == ' ')
  }

  lemma ShapeOf(blanks: string, head: string, d: string, tail: string)
    requires (forall k :: 0 <= k < |blanks| ==> blanks[k] == ' ') && (forall k :: 0 <= k < |tail| ==> tail[k] == ' ')
    ensures var s := blanks + head + d + tail; Shaped(s, |blanks|, |blanks| + |head|, |blanks| + |head| + |d|, head, d)
  {
    var s := blanks + head + d + tail;
    assert s == blanks + (head + (d + tail));
    var c := |blanks| + |head| + |d|;
    forall k | c <= k < |s| ensures s[k] == ' ' { assert s[k] == tail[k - c]; }
  }

  // Every printed number has this shape.
  lemma PrintedShape(u: int, base: int, sign: string, sp: Spec) returns (a: nat, b: nat, c: nat, d: string)
    requires 0 <= u && 2 <= base <= 16
    ensures Shaped(Printed(u, base, sign, sp), a, b, c, sign + Prefix(u, base, sp.alternate), d) && Reads(d, u, base)
    ensures sp.width == 0 && sp.precision == -1 ==> a == 0 && c == |Printed(u, base, sign, sp)| && d == Numeral(u, base)
  {
    hide Numeral, Prefix, Reads, Shaped, Repeat;
    var digits := Numeral(u, base);
    var head := sign + Prefix(u, base, sp.alternate);
    var z := sp.precision - |digits|;
    var pad := sp.width - |digits| - |head| - |Repeat('0', z)|;
    var r, prefix := Repeat(' ', pad), Prefix(u, base, sp.alternate);
    assert r + sign + prefix == r + head;
    Assemble(head, z, pad, digits, sp.zero, sp.left);
    var blanks := if sp.zero || sp.left then "" else Repeat(' ', pad);
    var tail := if sp.left && !sp.zero then Repeat(' ', pad) else "";
    var m, n := if z > 0 then z else 0, if sp.zero && pad > 0 then pad else 0;
    d := Repeat('0', m + n) + digits;
    a, b, c := |blanks|, |blanks| + |head|, |blanks| + |head| + |d|;
    NumeralReads(m + n, u, base);
    Blank(pad);
    ShapeOf(blanks, head, d, tail);
    if sp.width == 0 && sp.precision == -1 { NoZeros(digits, pad); }
  }

  lemma Blank(pad: int)
    ensures forall k :: 0 <= k < |Repeat(' ', pad)| ==> Repeat(' ', pad)[k] == ' '
  {}

  lemma NoZeros(digits: string, pad: int)
    ensures Repeat('0', 0) + digits == digits && (pad <= 0 ==> Repeat(' ', pad) == "")
  {}

  // The parts as they are printed, and as they are read.
  lemma Assemble(head: string, z: int, pad: int, digits: string, zero: bool, left: bool)
    ensures var m, n := if z > 0 then z else 0, if zero && pad > 0 then pad else 0;
            var blanks, tail := if zero || left then "" else Repeat(' ', pad), if left && !zero then Repeat(' ', pad) else "";
            (if zero then head + Repeat('0', z) + Repeat('0', pad) + digits
             else if left then head + Repeat('0', z) + digits + Repeat(' ', pad)
             else Repeat(' ', pad) + head + Repeat('0', z) + digits)
            == blanks + head + (Repeat('0', m + n) + digits) + tail
  {
    var m, n := if z > 0 then z else 0, if zero && pad > 0 then pad else 0;
    RepeatAdd('0', m, n);
    RepeatClamp('0', z);
    RepeatClamp('0', pad);
    hide Repeat;
    if zero {
      Cat("", head, Repeat('0', z), Repeat('0', pad), digits, "");
    } else if left {
      Cat("", head, Repeat('0', z), "", digits, Repeat(' ', pad));
      CatNothing(head + Repeat('0', z), Repeat('0', z));
    } else {
      Cat(Repeat(' ', pad), head, Repeat('0', z), "", digits, "");
      CatNothing(Repeat(' ', pad) + head + Repeat('0', z), Repeat('0', z));
    }
    assert "" + head == head;
    RepeatNothing();
  }

  lemma Cat(a: string, b: string, c: string, d: string, e: string, f: string)
    ensures a + b + c + d + e + f == a + b + (c + d + e) + f
    ensures a + b + c + d + e + "" == a + b + c + d + e
  {}

  lemma CatNothing(s: string, t: string)
    ensures s + "" == s && t + "" == t
  {}

  lemma RepeatNothing()
    ensures Repeat('0', 0) == ""
  {}

  lemma RepeatClamp(c: char, n: int)
    ensures Repeat(c, n) == Repeat(c, if n > 0 then n else 0)
  {}

  // The digits are read to their end.
  lemma ShapeRead(s: string, a: nat, b: nat, c: nat, head: string, d: string, u: int, base: int)
    requires Shaped(s, a, b, c, head, d) && Reads(d, u, base) && base <= 16
    ensures b < c && DigitsEnd(s, b, base) == c && Value(s[b..c], base) == u && DigitValue(s[c - 1]) < base
    ensures forall k :: b <= k < c ==> s[k] != 'x' && s[k] != 'X' && DigitValue(s[k]) < base
  {
    hide Value;
    forall k | b <= k < c ensures s[k] != 'x' && s[k] != 'X' && DigitValue(s[k]) < base {
      assert s[k] == s[b..c][k - b] == d[k - b];
      assert d[k - b] in d;
    }
    DigitsEndIs(s, b, base, c);
  }

  lemma ShapeStart(s: string, a: nat, b: nat, c: nat, head: string, d: string)
    requires Shaped(s, a, b, c, head, d) && a < c && !IsSpace(s[a])
    ensures SkipSpaces(s, 0) == a
  {
    SkipSpacesIs(s, 0, a);
  }

  // strtoul on any %u, %x or %o output, in its base: the value, and the end behind the last
  // digit.
  lemma UnsignedRoundTrip(u: int, base: int, sp: Spec)
    requires 0 <= u < WORD && (base == 8 || base == 10 || base == 16)
    ensures var s := PrintUnsigned(u, base, sp); var (v, end) := Unsigned(s, base);
            v == u && end > 0 && DigitValue(s[end - 1]) < base && forall k :: end <= k < |s| ==> s[k] == ' '
  {
    var s := PrintUnsigned(u, base, sp);
    var prefix := Prefix(u, base, sp.alternate);
    var a, b, c, d := PrintedShape(u, base, "", sp);
    assert "" + prefix == prefix;
    ShapeRead(s, a, b, c, prefix, d, u, base);
    PrefixRead(s, a, b, c, prefix, d, u, base);
    hide Value, DigitsEnd;
    ShapeStart(s, a, b, c, prefix, d);
    QuotientIs(u, WORD, 0, u);
  }

  // The prefix, and nothing else, is taken for a prefix; the prefix of an octal number reads
  // as one more zero.
  lemma PrefixRead(s: string, a: nat, b: nat, c: nat, prefix: string, d: string, u: int, base: int)
    requires Shaped(s, a, b, c, prefix, d) && Reads(d, u, base) && (base == 8 || base == 10 || base == 16)
    requires prefix == "" || (base == 8 && prefix == "0") || (base == 16 && prefix == "0x")
    ensures a < c && !IsSpace(s[a])
    ensures var (start, bb) := AfterPrefix(s, a, base);
            bb == base && start < c && DigitsEnd(s, start, base) == c && Value(s[start..c], base) == u && DigitValue(s[c - 1]) < base
  {
    hide Value;
    ShapeRead(s, a, b, c, prefix, d, u, base);
    if prefix == "0x" {
      assert s[a] == s[a..b][0] && s[a + 1] == s[a..b][1];
    } else if prefix == "0" {
      assert s[a] == s[a..b][0];
      OctalPrefix(s, a, b, c, u);
    }
  }

  lemma OctalPrefix(s: string, a: nat, b: nat, c: nat, u: int)
    requires a + 1 == b < c <= |s| && s[a] == '0' && Value(s[b..c], 8) == u
    requires forall k :: b <= k < c ==> DigitValue(s[k]) < 8
    requires c < |s| ==> s[c] == ' '
    ensures DigitsEnd(s, a, 8) == c && Value(s[a..c], 8) == u
  {
    hide Value;
    DigitsEndIs(s, a, 8, c);
    assert s[a..c] == "0" + s[b..c];
    ZerosValue(1, s[b..c], 8);
    assert Repeat('0', 1) == "0";
  }

  // ---- Base 0: the base is found from the text, when it is neither padded nor given a precision

  lemma GuessedBase(u: int, base: int, sp: Spec)
    requires 0 <= u < WORD && sp.width == 0 && sp.precision == -1
    requires base == 10 || ((base == 8 || base == 16) && sp.alternate)
    ensures var s := PrintUnsigned(u, base, sp); Unsigned(s, 0) == (u, |s|)
  {
    hide Unsigned, Printed, Reads, DigitsEnd, Numeral;
    var s := PrintUnsigned(u, base, sp);
    var prefix := Prefix(u, base, sp.alternate);
    var a, b, c, d := PrintedShape(u, base, "", sp);
    assert "" + prefix == prefix;
    NumeralFirst(u, base);
    if u == 0 {
      assert s == s[b..c] == "0";
      ZeroGuessed(s);
    } else {
      NonZeroGuessed(s, b, prefix, d, u, base);
    }
  }

  lemma NonZeroGuessed(s: string, b: nat, prefix: string, d: string, u: int, base: int)
    requires Shaped(s, 0, b, |s|, prefix, d) && Reads(d, u, base) && 0 < u < WORD && d != ""
    requires (base == 10 && prefix == "") || (base == 8 && prefix == "0") || (base == 16 && prefix == "0x")
    requires d[0] != '0'
    ensures Unsigned(s, 0) == (u, |s|)
  {
    ShapeRead(s, 0, b, |s|, prefix, d, u, base);
    PrefixRead(s, 0, b, |s|, prefix, d, u, base);
    ShapeStart(s, 0, b, |s|, prefix, d);
    QuotientIs(u, WORD, 0, u);
    hide Value, DigitsEnd, Reads;
    assert s[b] == s[b..|s|][0] == d[0];
    if prefix == "0" {
      assert s[0] == s[0..b][0];
    } else if prefix == "0x" {
      assert s[0] == s[0..b][0] && s[1] == s[0..b][1];
    }
  }

  lemma ZeroGuessed(s: string)
    requires s == "0"
    ensures Unsigned(s, 0) == (0, 1)
  {
    hide Value, DigitsEnd, SkipSpaces;
    DigitsEndIs(s, 0, 8, 1);
    SkipSpacesIs(s, 0, 0);
    ZeroValue();
    assert s[0..1] == "0";
  }

  lemma ZeroValue()
    ensures Value("0", 8) == 0
  {
    assert "0"[..0] == "";
  }

  // ---- %d

  // strtol on any %d output without a plus sign, above the least number.
  lemma SignedRoundTrip(n: int, sp: Spec)
    requires -0x8000_0000 < n < 0x8000_0000 && (n < 0 || !sp.plus)
    ensures var s := PrintSigned(n, 10, sp); var (v, end) := SignedNumber(s, 10);
            v == n && end > 0 && DigitValue(s[end - 1]) < 10 && forall k :: end <= k < |s| ==> s[k] == ' '
  {
    var u := if n >= 0 then n else -n;
    var sign := if n >= 0 then PlusSign(sp) else "-";
    hide SignedNumber, Reads, Printed, DigitsEnd;
    var s := PrintSigned(n, 10, sp);
    var a, b, c, d := PrintedShape(u, 10, sign, sp);
    assert sign + Prefix(u, 10, sp.alternate) == sign;
    DigitsFollow(s, a, b, c, sign, d, u);
    if sign == " " {
      assert s[a] == s[a..b][0];
      assert s[b..b] == "";
      SignedParts(s, b, b, c, "", d, u, n);
    } else {
      SignedParts(s, a, b, c, sign, d, u, n);
    }
  }

  lemma DigitsFollow(s: string, a: nat, b: nat, c: nat, head: string, d: string, u: int)
    requires Shaped(s, a, b, c, head, d) && Reads(d, u, 10)
    ensures b < c
  {}

  lemma SignedParts(s: string, a: nat, b: nat, c: nat, sign: string, d: string, u: int, n: int)
    requires Shaped(s, a, b, c, sign, d) && Reads(d, u, 10) && 0 <= u < 0x8000_0000
    requires (sign == "" && n == u) || (sign == "-" && n == -u)
    ensures var (v, end) := SignedNumber(s, 10);
            v == n && end > 0 && DigitValue(s[end - 1]) < 10 && forall k :: end <= k < |s| ==> s[k] == ' '
  {
    ShapeRead(s, a, b, c, sign, d, u, 10);
    hide Value, DigitsEnd;
    assert sign == "-" ==> s[a] == s[a..b][0];
    ShapeStart(s, a, b, c, sign, d);
    SignedWord(u);
    SignedWord(n);
  }

  // With the plus sign printed, strtol finds no digits: the number is lost unless it is 0.
  lemma PlusIsNotRead(n: int, sp: Spec)
    requires 0 <= n && sp.plus
    ensures var s := PrintSigned(n, 10, sp); var (v, end) := SignedNumber(s, 10); v == 0 && end < |s| && s[end] == '+'
  {
    hide SignedNumber, Reads, Printed, DigitsEnd;
    var s := PrintSigned(n, 10, sp);
    var a, b, c, d := PrintedShape(n, 10, "+", sp);
    assert "+" + Prefix(n, 10, sp.alternate) == "+";
    DigitsFollow(s, a, b, c, "+", d, n);
    PlusStops(s, a, b, c, d);
  }

  lemma PlusStops(s: string, a: nat, b: nat, c: nat, d: string)
    requires Shaped(s, a, b, c, "+", d)
    ensures var (v, end) := SignedNumber(s, 10); v == 0 && end < |s| && s[end] == '+'
  {
    assert s[a] == s[a..b][0];
    ShapeStart(s, a, b, c, "+", d);
    DigitsEndIs(s, a, 10, a);
    assert s[a..a] == "";
    ValueNothing(10);
    SignedWord(0);
  }

  lemma SignedWord(x: int)
    requires -0x8000_0000 < x < 0x8000_0000
    ensures Signed32(x) == x
  {
    if x >= 0 { QuotientIs(x, WORD, 0, x); } else { QuotientIs(x, WORD, -1, x + WORD); }
  }
}
