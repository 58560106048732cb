// The conversion specifications of _doprnt and the block that prints a number.
module NumberPrinter {

  import opened Digits
  import opened Words

  const MAXBUF := 32

  // ---- One conversion specification

  // What stands between '%' and the conversion character; precision -1 is none.
  datatype Spec = Spec(alternate: bool, left: bool, plus: bool, blank: bool, zero: bool, width: int, precision: int)

  // plus_sign, the character printed before a number that is not negative
  function PlusSign(sp: Spec): string {
    if sp.plus then "+" else if sp.blank then " " else ""
  }

  function Flags(sp: Spec): string {
    (if sp.alternate then "#" else "") + (if sp.left then "-" else "") + (if sp.plus then "+" else "") + (if sp.blank then " " else "")
  }

  // The text of a specification.
  function SpecText(sp: Spec): string
    requires sp.width >= 0 && sp.precision >= -1
  {
    Flags(sp) + (if sp.zero then "0" else "") + (if sp.width > 0 then Numeral(sp.width, 10) else "")
    + if sp.precision >= 0 then "." + Numeral(sp.precision, 10) else ""
  }

  function CharAt(s: string, i: nat): char {
    if i < |s| then s[i] else '\0'
  }

  predicate IsDigit(c: char) {
    '0' <= c <= '9'
  }

  // The digits from position i on, as a number.
  method ReadNumber(fmt: string, i: nat) returns (v: int, next: nat)
    requires i <= |fmt|
    ensures i <= next <= |fmt| && (forall k :: i <= k < next ==> IsDigit(fmt[k])) && !IsDigit(CharAt(fmt, next))
    ensures v == Value(fmt[i..next], 10)
  {
    v, next := 0, i;
    assert fmt[i..i] == [];
    while IsDigit(CharAt(fmt, next))
      invariant i <= next <= |fmt| && (forall k :: i <= k < next ==> IsDigit(fmt[k]))
      invariant v == Value(fmt[i..next], 10)
      decreases |fmt| - next
    {
      assert fmt[i..next + 1][..next - i] == fmt[i..next];
      v := 10 * v + (fmt[next] as int - '0' as int);
      next := next + 1;
    }
  }

  // The loop over the flags.
  method ReadFlags(fmt: string) returns (alternate: bool, left: bool, plus: bool, blank: bool, i: nat)
    ensures i <= |fmt| && (forall k :: 0 <= k < i ==> IsFlag(fmt[k])) && !IsFlag(CharAt(fmt, i))
    ensures alternate == ('#' in fmt[..i]) && left == ('-' in fmt[..i]) && plus == ('+' in fmt[..i]) && blank == (' ' in fmt[..i])
  {
    alternate, left, plus, blank := false, false, false, false;
    i := 0;
    while IsFlag(CharAt(fmt, i))
      invariant 0 <= i <= |fmt| && forall k :: 0 <= k < i ==> IsFlag(fmt[k])
      invariant alternate == ('#' in fmt[..i]) && left == ('-' in fmt[..i])
      invariant plus == ('+' in fmt[..i]) && blank == (' ' in fmt[..i])
      decreases |fmt| - i
    {
      assert fmt[..i + 1] == fmt[..i] + [fmt[i]];
      if fmt[i] == '#' {
        alternate := true;
      } else if fmt[i] == '-' {
        left := true;
      } else if fmt[i] == '+' {
        plus := true;
      } else {
        blank := true;
      }
      i := i + 1;
    }
  }

  // The head of _doprnt's loop, from behind the '%' to the conversion character, without '*': the
  // flags in any order and number, and then each part as far as it goes.
  method ParseSpec(fmt: string) returns (sp: Spec, next: nat)
    ensures exists flags, digits, dot :: Scanned(fmt, flags, digits, dot, next, sp)
    ensures forall t: Spec, c: char, rest: string :: Readable(t, c) && fmt == SpecText(t) + [c] + rest ==>
      sp == t && next == |SpecText(t)|
  {
    hide Value, SpecText, Readable;
    var alternate, left, plus, blank, i := ReadFlags(fmt);
    ghost var flags := i;
    var zero := CharAt(fmt, i) == '0';
    if zero {
      i := i + 1;
    }
    ghost var digits := i;
    var width := 0;
    if IsDigit(CharAt(fmt, i)) {
      width, i := ReadNumber(fmt, i);
    }
    ghost var dot := i;
    var precision := -1;
    if CharAt(fmt, i) == '.' {
      i := i + 1;
      if IsDigit(CharAt(fmt, i)) {
        precision, i := ReadNumber(fmt, i);
      }
    }
    sp := Spec(alternate, left, plus, blank, zero, width, precision);
    next := i;
    hide IsFlag, IsDigit;
    assert Scanned(fmt, flags, digits, dot, next, sp);
    hide Scanned;
    AllRead(fmt, flags, digits, dot, next, sp);
  }

  // How far each part of the loop head got, and what it made of it.
  ghost predicate Scanned(fmt: string, flags: nat, digits: nat, dot: nat, next: nat, sp: Spec) {
    && flags <= digits <= dot <= next <= |fmt|
    && (forall k :: 0 <= k < flags ==> IsFlag(fmt[k])) && !IsFlag(CharAt(fmt, flags))
    && digits == flags + (if CharAt(fmt, flags) == '0' then 1 else 0)
    && (forall k :: digits <= k < dot ==> IsDigit(fmt[k])) && !IsDigit(CharAt(fmt, dot))
    && (CharAt(fmt, dot) != '.' ==> next == dot)
    && (CharAt(fmt, dot) == '.' ==> dot < next && (forall k :: dot + 1 <= k < next ==> IsDigit(fmt[k])) && !IsDigit(CharAt(fmt, next)))
    && sp == Spec('#' in fmt[..flags], '-' in fmt[..flags], '+' in fmt[..flags], ' ' in fmt[..flags],
                  CharAt(fmt, flags) == '0', if dot > digits then Value(fmt[digits..dot], 10) else 0,
                  if next > dot + 1 then Value(fmt[dot + 1..next], 10) else -1)
  }

  lemma AllRead(fmt: string, flags: nat, digits: nat, dot: nat, next: nat, sp: Spec)
    requires Scanned(fmt, flags, digits, dot, next, sp)
    ensures forall t: Spec, c: char, rest: string :: Readable(t, c) && fmt == SpecText(t) + [c] + rest ==>
      sp == t && next == |SpecText(t)|
  {
    hide Scanned, SpecText;
    forall t: Spec, c: char, rest: string | Readable(t, c) && fmt == SpecText(t) + [c] + rest
      ensures sp == t && next == |SpecText(t)|
    {
      SpecRead(fmt, t, c, rest, flags, digits, dot, next, sp);
    }
  }

  predicate IsFlag(c: char) {
    c == '#' || c == '-' || c == '+' || c == ' '
  }

  // A specification as a program writes it, followed by a conversion character.
  predicate Readable(t: Spec, c: char) {
    t.width >= 0 && t.precision >= -1 && 'A' <= c
  }

  lemma SpecRead(fmt: string, t: Spec, c: char, rest: string, flags: nat, digits: nat, dot: nat, next: nat, sp: Spec)
    requires Readable(t, c) && fmt == SpecText(t) + [c] + rest
    requires Scanned(fmt, flags, digits, dot, next, sp)
    ensures sp == t && next == |SpecText(t)|
  {
    hide Value, SpecText, FlagsPart, WidthPart, PrecisionPart, Scanned;
    SpecShape(fmt, t, c, rest);
    var a := |Flags(t)|;
    var b := a + if t.zero then 1 else 0;
    var d := b + |WidthText(t)|;
    FlagsRead(fmt, t, a, flags, digits, dot, next, sp);
    WidthRead(fmt, t, b, d, flags, digits, dot, next, sp);
    PrecisionRead(fmt, t, d, d + |PrecisionText(t)|, flags, digits, dot, next, sp);
  }

  lemma FlagsRead(fmt: string, t: Spec, a: nat, flags: nat, digits: nat, dot: nat, next: nat, sp: Spec)
    requires FlagsPart(fmt, t, a) && Scanned(fmt, flags, digits, dot, next, sp)
    ensures digits == a + (if t.zero then 1 else 0) && sp.alternate == t.alternate && sp.left == t.left
    ensures sp.plus == t.plus && sp.blank == t.blank && sp.zero == t.zero
  {
    hide Flags, IsFlag;
    FlagChars(t);
    forall k | 0 <= k < a ensures IsFlag(fmt[k]) { assert fmt[k] == Flags(t)[k]; }
    SameStop(fmt, 0, flags, a, true);
  }

  lemma WidthRead(fmt: string, t: Spec, b: nat, d: nat, flags: nat, digits: nat, dot: nat, next: nat, sp: Spec)
    requires t.width >= 0 && WidthPart(fmt, t, b, d) && Scanned(fmt, flags, digits, dot, next, sp) && digits == b
    ensures dot == d && sp.width == t.width
  {
    hide IsDigit, IsFlag, CharAt, Numeral, Value, AllDigits;
    if t.width > 0 { NumeralDigits(t.width); NumeralValue(t.width, 10); }
    forall k | b <= k < d ensures IsDigit(fmt[k]) { assert fmt[k] == fmt[b..d][k - b]; }
    SameStop(fmt, digits, dot, d, false);
  }

  lemma PrecisionRead(fmt: string, t: Spec, d: nat, n: nat, flags: nat, digits: nat, dot: nat, next: nat, sp: Spec)
    requires t.precision >= -1 && PrecisionPart(fmt, t, d, n) && Scanned(fmt, flags, digits, dot, next, sp) && dot == d
    ensures next == n && sp.precision == t.precision
  {
    PrecisionShape(fmt, t, d, n);
    hide IsDigit, IsFlag, Numeral, Value, AllDigits;
    if t.precision >= 0 { NumeralValue(t.precision, 10); }
    if t.precision >= 0 { SameStop(fmt, dot + 1, next, n, false); }
  }

  ghost predicate FlagsPart(fmt: string, t: Spec, a: nat) {
    a == |Flags(t)| && a <= |fmt| && fmt[..a] == Flags(t) && !IsFlag(CharAt(fmt, a)) && (CharAt(fmt, a) == '0' <==> t.zero)
  }

  ghost predicate WidthPart(fmt: string, t: Spec, b: nat, d: nat) {
    t.width >= 0 && b <= d <= |fmt| && fmt[b..d] == WidthText(t) && !IsDigit(CharAt(fmt, d))
  }

  ghost predicate PrecisionPart(fmt: string, t: Spec, d: nat, n: nat) {
    && t.precision >= -1 && d <= n <= |fmt| && fmt[d..n] == PrecisionText(t) && !IsDigit(CharAt(fmt, n))
    && (CharAt(fmt, d) == '.' <==> t.precision >= 0)
  }

  function WidthText(t: Spec): (w: string)
    requires t.width >= 0
    ensures w == "" <==> t.width == 0
  {
    if t.width > 0 then Numeral(t.width, 10) else ""
  }

  function PrecisionText(t: Spec): string
    requires t.precision >= -1
  {
    if t.precision >= 0 then "." + Numeral(t.precision, 10) else ""
  }

  // Where the parts of a specification begin and end.
  lemma SpecShape(fmt: string, t: Spec, c: char, rest: string)
    requires Readable(t, c) && fmt == SpecText(t) + [c] + rest
    ensures var a := |Flags(t)|; var b := a + if t.zero then 1 else 0;
            var d := b + |WidthText(t)|; var n := d + |PrecisionText(t)|;
            n == |SpecText(t)| && FlagsPart(fmt, t, a) && WidthPart(fmt, t, b, d) && PrecisionPart(fmt, t, d, n)
  {
    hide Numeral, Flags, WidthText, PrecisionText, IsFlag, IsDigit, CharAt;
    SpecTextIs(t);
    hide SpecText;
    var z := if t.zero then "0" else "";
    var r4 := [c] + rest;
    var r3 := PrecisionText(t) + r4;
    var r2 := WidthText(t) + r3;
    var r1 := z + r2;
    Regroup(Flags(t), z, WidthText(t), PrecisionText(t), [c], rest);
    FirstChars(t, c, rest, z, r1, r2, r3, r4);
    ShapeParts(fmt, Flags(t), z, WidthText(t), PrecisionText(t), r1, r2, r3, r4);
  }

  lemma SpecTextIs(t: Spec)
    requires t.width >= 0 && t.precision >= -1
    ensures SpecText(t) == Flags(t) + (if t.zero then "0" else "") + WidthText(t) + PrecisionText(t)
  {
    hide Numeral, Flags;
  }

  lemma Regroup(f: string, z: string, w: string, p: string, c: string, rest: string)
    ensures f + z + w + p + c + rest == f + (z + (w + (p + (c + rest))))
  {}

  lemma ShapeParts(s: string, f: string, z: string, w: string, p: string, r1: string, r2: string, r3: string, r4: string)
    requires s == f + r1 && r1 == z + r2 && r2 == w + r3 && r3 == p + r4
    ensures var a, b := |f|, |f| + |z|; var d := b + |w|; var n := d + |p|;
            && n <= |s| && s[..a] == f && s[b..d] == w && s[d..n] == p
            && CharAt(s, a) == CharAt(r1, 0) && CharAt(s, d) == CharAt(r3, 0) && CharAt(s, n) == CharAt(r4, 0)
  {
    hide CharAt;
    assert s[0..] == s;
    NextPart(s, 0, f, s, r1);
    NextPart(s, |f|, z, r1, r2);
    NextPart(s, |f| + |z|, w, r2, r3);
    NextPart(s, |f| + |z| + |w|, p, r3, r4);
  }

  lemma NextPart(s: string, i: nat, f: string, r: string, r': string)
    requires i <= |s| && s[i..] == r && r == f + r'
    ensures i + |f| <= |s| && s[i..i + |f|] == f && s[i + |f|..] == r'
    ensures CharAt(s, i) == CharAt(r, 0) && CharAt(s, i + |f|) == CharAt(r', 0)
  {
    assert s[i..][..|f|] == f && s[i..][|f|..] == r';
    assert s[i..][..|f|] == s[i..i + |f|] && s[i..][|f|..] == s[i + |f|..];
  }

  // What each part is followed by.
  lemma FirstChars(t: Spec, c: char, rest: string, z: string, r1: string, r2: string, r3: string, r4: string)
    requires Readable(t, c) && z == (if t.zero then "0" else "") && r4 == [c] + rest
    requires r3 == PrecisionText(t) + r4 && r2 == WidthText(t) + r3 && r1 == z + r2
    ensures !IsFlag(CharAt(r1, 0)) && (CharAt(r1, 0) == '0' <==> t.zero) && !IsDigit(CharAt(r3, 0)) && !IsDigit(CharAt(r4, 0))
    ensures CharAt(r3, 0) == '.' <==> t.precision >= 0
  {
    hide Numeral;
    assert CharAt(r4, 0) == c;
    if t.precision >= 0 { assert r3[0] == '.'; } else { assert r3 == r4; }
    if t.width > 0 {
      NumeralFirst(t.width, 10);
      NumeralDigits(t.width);
      assert IsDigit(Numeral(t.width, 10)[0]);
      assert r2[0] == WidthText(t)[0];
    } else {
      assert r2 == r3;
    }
    if t.zero {
      assert r1[0] == '0';
    } else {
      assert r1 == r2;
      if t.width > 0 {
        assert CharAt(r1, 0) == Numeral(t.width, 10)[0];
      } else if t.precision >= 0 {
        assert CharAt(r1, 0) == '.';
      } else {
        assert CharAt(r1, 0) == c;
      }
    }
  }

  lemma PrecisionShape(fmt: string, t: Spec, d: nat, n: nat)
    requires t.precision >= -1 && d <= n <= |fmt| && n == d + |PrecisionText(t)| && fmt[d..n] == PrecisionText(t)
    ensures t.precision >= 0 ==> n > d + 1 && fmt[d + 1..n] == Numeral(t.precision, 10)
    ensures t.precision >= 0 ==> forall k :: d + 1 <= k < n ==> IsDigit(fmt[k])
  {
    if t.precision >= 0 {
      NumeralDigits(t.precision);
      hide Numeral;
      var p := PrecisionText(t);
      assert p[1..] == Numeral(t.precision, 10);
      assert fmt[d + 1..n] == fmt[d..n][1..];
      forall k | d + 1 <= k < n ensures IsDigit(fmt[k]) {
        assert fmt[k] == fmt[d + 1..n][k - (d + 1)];
      }
    }
  }

  lemma NumeralDigits(u: int)
    requires u >= 0
    ensures forall i :: 0 <= i < |Numeral(u, 10)| ==> IsDigit(Numeral(u, 10)[i])
  {}

  lemma FlagChars(t: Spec)
    ensures forall i :: 0 <= i < |Flags(t)| ==> IsFlag(Flags(t)[i])
    ensures ('#' in Flags(t)) == t.alternate && ('-' in Flags(t)) == t.left
    ensures ('+' in Flags(t)) == t.plus && (' ' in Flags(t)) == t.blank
  {}

  // Two ends of the same run of flags, or of digits, coincide.
  lemma SameStop(s: string, start: nat, i: nat, j: nat, flag: bool)
    requires start <= i <= |s| && start <= j <= |s|
    requires forall k :: start <= k < i ==> if flag then IsFlag(s[k]) else IsDigit(s[k])
    requires forall k :: start <= k < j ==> if flag then IsFlag(s[k]) else IsDigit(s[k])
    requires if flag then !IsFlag(CharAt(s, i)) && !IsFlag(CharAt(s, j)) else !IsDigit(CharAt(s, i)) && !IsDigit(CharAt(s, j))
    ensures i == j
  {}

  // ---- print_num

  function Prefix(u: int, base: int, alternate: bool): string {
    if u != 0 && alternate then (if base == 8 then "0" else if base == 16 then "0x" else "") else ""
  }

  // The number with its sign, prefix, precision zeros and padding.
  function Printed(u: int, base: int, sign: string, sp: Spec): (s: string)
    requires 0 <= u && 2 <= base <= 16
  {
    Laid(Numeral(u, base), Prefix(u, base, sp.alternate), sign, sp)
  }

  function Laid(digits: string, prefix: string, sign: string, sp: Spec): (s: string)
  {
    var zeros := Repeat('0', sp.precision - |digits|);
    var pad := sp.width - |digits| - |sign| - |prefix| - |zeros|;
    if sp.zero then sign + prefix + zeros + Repeat('0', pad) + digits
    else if sp.left then sign + prefix + zeros + digits + Repeat(' ', pad)
    else Repeat(' ', pad) + sign + prefix + zeros + digits
  }

  function Max(a: int, b: int): int {
    if a >= b then a else b
  }

  // The length of the output.
  lemma PrintedLength(u: int, base: int, sign: string, sp: Spec)
    requires 0 <= u && 2 <= base <= 16
    ensures |Printed(u, base, sign, sp)|
         == Max(sp.width, |sign| + |Prefix(u, base, sp.alternate)| + Max(|Numeral(u, base)|, sp.precision))
  {}

  // The output in its parts. Blanks stand before the sign, or behind the digits with a minus flag,
  // and with zero padding there are none. The digits are the numeral, in small letters, behind as
  // many zeros as the precision asks for.
  lemma PrintedParts(u: int, base: int, sign: string, sp: Spec) returns (blanks: string, prefix: string, zeros: string, tail: string)
    requires 0 <= u && 2 <= base <= 16
    ensures Printed(u, base, sign, sp) == blanks + sign + prefix + zeros + Numeral(u, base) + tail && LowerCase(Numeral(u, base))
    ensures (forall i :: 0 <= i < |blanks| ==> blanks[i] == ' ') && (forall i :: 0 <= i < |tail| ==> tail[i] == ' ')
    ensures (sp.left || sp.zero ==> blanks == "") && (!sp.left || sp.zero ==> tail == "")
    ensures (forall i :: 0 <= i < |zeros| ==> zeros[i] == '0') && (!sp.zero ==> |zeros| == Max(0, sp.precision - |Numeral(u, base)|))
    ensures u == 0 || !sp.alternate || base == 10 ==> prefix == ""
    ensures u != 0 && sp.alternate ==> (base == 16 ==> prefix == "0x") && (base == 8 ==> prefix == "0")
  {
    var digits := Numeral(u, base);
    prefix := Prefix(u, base, sp.alternate);
    NumeralLower(u, base);
    zeros := Repeat('0', sp.precision - |digits|);
    var pad := sp.width - |digits| - |sign| - |prefix| - |zeros|;
    LaidIs(digits, prefix, sign, sp, sp.precision - |digits|, pad);
    hide Numeral, Prefix, Repeat, LowerCase, Laid;
    blanks := if sp.left || sp.zero then "" else Repeat(' ', pad);
    tail := if sp.left && !sp.zero then Repeat(' ', pad) else "";
    if sp.zero {
      PartsJoin("" + sign + prefix, zeros, Repeat('0', pad), digits);
      zeros := zeros + Repeat('0', pad);
    } else if !sp.left {
      assert "" + blanks == blanks && blanks + sign + prefix + zeros + digits + "" == blanks + sign + prefix + zeros + digits;
    }
  }

  lemma PartsJoin(a: string, b: string, c: string, d: string)
    ensures a + b + c + d == a + (b + c) + d + ""
  {}

  lemma {:induction false} NumeralLength(u: int, base: int, n: nat)
    requires 0 <= u < Pow2(n) && 2 <= base <= 16 && n >= 1
    ensures |Numeral(u, base)| <= n
  {
    hide Numeral;
    NumeralStep(u, base);
    if u >= base {
      assert Pow2(1) == 2;
      var h := Pow2(n - 1);
      Scale(h, 2, base);
      QuotientBetween(u, base, 0, h);
      NumeralLength(u / base, base, n - 1);
    }
  }

  // The digits go into the buffer from its end.
  method FillBuffer(buf: array<char>, u0: int, base: int) returns (p: int)
    requires buf.Length == MAXBUF && 0 <= u0 < WORD && 2 <= base <= 16
    modifies buf
    ensures -1 <= p < MAXBUF - 1 && buf[p + 1..] == Numeral(u0, base)
  {
    hide Numeral;
    var u := u0;
    p := MAXBUF - 1;
    Pow2Of32();
    NumeralLength(u0, base, 32);
    ghost var before: string := [];
    assert buf[p + 1..] == before && Numeral(u, base) + before == Numeral(u0, base);
    while true
      invariant 0 <= p < MAXBUF && u >= 0 && |before| == MAXBUF - 1 - p && buf[p + 1..] == before
      invariant Numeral(u0, base) == Numeral(u, base) + before
      decreases u
    {
      NumeralStep(u, base);
      Euclid(u, base);
      ghost var c := DigitChar(u % base);
      assert u < base ==> u % base == u && u / base == 0 by { if u < base { QuotientIs(u, base, 0, u); } }
      assert u >= base ==> Numeral(u / base, base) + [c] + before == Numeral(u / base, base) + ([c] + before);
      buf[p] := DigitChar(u % base);
      assert buf[p + 1..] == before;
      before := [c] + before;
      assert buf[p..] == before;
      p := p - 1;
      if u / base == 0 {
        return;
      }
      u := u / base;
    }
  }

  method PrintNum(u: int, base: int, sign: string, sp: Spec) returns (out: string)
    requires 0 <= u < WORD && 2 <= base <= 16 && |sign| <= 1
    ensures out == Printed(u, base, sign, sp)
  {
    hide Numeral, Repeat, Prefix;
    var buf := new char[MAXBUF](_ => ' ');
    var p := FillBuffer(buf, u, base);
    var digits := buf[p + 1..];
    var n := MAXBUF - 1 - p;
    var prefix := Prefix(u, base, sp.alternate);
    var prec := sp.precision - n;
    var length := sp.width - n;
    if sign != "" {
      length := length - 1;
    }
    length := length - |prefix|;
    if prec > 0 {
      length := length - prec;
    }
    out := Lay(digits, prefix, sign, sp, prec, length);
  }

  // The output in its order, `length` characters of padding in one of three places.
  method Lay(digits: string, prefix: string, sign: string, sp: Spec, prec: int, length: int) returns (out: string)
    requires prec == sp.precision - |digits|
    requires length == sp.width - |digits| - |sign| - |prefix| - |Repeat('0', prec)|
    ensures out == Laid(digits, prefix, sign, sp)
  {
    hide Repeat, Laid;
    RepeatNone(' ');
    LaidIs(digits, prefix, sign, sp, prec, length);
    var rest := length;
    out := "";
    if !sp.zero && !sp.left {
      out := PutRepeated(out, ' ', rest);
      rest := -1;
    }
    out := out + sign + prefix;
    out := PutRepeated(out, '0', prec);
    if sp.zero {
      out := PutRepeated(out, '0', rest);
      rest := -1;
    }
    out := out + digits;
    if sp.left {
      ghost var head := out;
      out := PutRepeated(out, ' ', rest);
      assert rest == -1 ==> out == head;
    }
  }

  lemma LaidIs(digits: string, prefix: string, sign: string, sp: Spec, prec: int, pad: int)
    requires prec == sp.precision - |digits|
    requires pad == sp.width - |digits| - |sign| - |prefix| - |Repeat('0', prec)|
    ensures sp.zero ==> Laid(digits, prefix, sign, sp) == "" + sign + prefix + Repeat('0', prec) + Repeat('0', pad) + digits
    ensures !sp.zero && sp.left ==> Laid(digits, prefix, sign, sp) == "" + sign + prefix + Repeat('0', prec) + digits + Repeat(' ', pad)
    ensures !sp.zero && !sp.left ==>
      Laid(digits, prefix, sign, sp) == "" + Repeat(' ', pad) + sign + prefix + Repeat('0', prec) + digits
  {
    hide Repeat;
    assert "" + sign + prefix == sign + prefix && "" + Repeat(' ', pad) == Repeat(' ', pad);
  }

  lemma RepeatNone(c: char)
    ensures Repeat(c, -1) == ""
  {}

  // while (--n >= 0) putc(c)
  method PutRepeated(before: string, c: char, n: int) returns (out: string)
    ensures out == before + Repeat(c, n)
  {
    out := before;
    var k := 0;
    assert before + [] == before;
    while k < n
      invariant 0 <= k && (k <= n || k == 0) && out == before + Repeat(c, k)
    {
      out := out + [c];
      k := k + 1;
    }
  }

  // ---- %u, %x, %o and %d

  function PrintUnsigned(u: int, base: int, sp: Spec): string
    requires 0 <= u && 2 <= base <= 16
  {
    Printed(u, base, "", sp)
  }

  function PrintSigned(n: int, base: int, sp: Spec): string
    requires 2 <= base <= 16
  {
    if n >= 0 then Printed(n, base, PlusSign(sp), sp) else Printed(-n, base, "-", sp)
  }
}
