// 64-bit division from 32-bit pieces: the kernel's do_div64, built on the processor's 64 by 32
// bit division, and the shift-and-subtract div64 of the user library.
module Division {

  import opened Words

  const WORD2 := 0x1_0000_0000_0000_0000

  // A division instruction traps on a zero divisor and on a quotient that needs more than 32 bits.
  datatype Result = Quotient(q: int, r: int) | Trap

  // divl: (hi, lo) by d
  function DivL(hi: int, lo: int, d: int): (res: Result)
    requires 0 <= hi < WORD && 0 <= lo < WORD && 0 <= d < WORD
    ensures res.Quotient? <==> hi < d
    ensures hi < d ==> hi * WORD + lo == d * res.q + res.r && 0 <= res.r < d && 0 <= res.q < WORD
  {
    if hi < d then
      var x := hi * WORD + lo;
      QuotientFits(hi, lo, d);
      Quotient(x / d, x % d)
    else Trap
  }

  lemma QuotientFits(hi: int, lo: int, d: int)
    requires 0 <= hi < d && 0 <= lo < WORD
    ensures var x := hi * WORD + lo; 0 <= x / d < WORD && x == d * (x / d) + x % d
  {
    var x := hi * WORD + lo;
    Scale(WORD, hi + 1, d);
    QuotientBetween(x, d, 0, WORD);
    Euclid(x, d);
  }

  // The number of places a divisor of more than 32 bits is shifted, and what is left of it.
  function Places(y: int): (l: nat)
    requires y >= WORD
    ensures 1 <= l
  {
    HighestBit(y / WORD) + 1
  }

  function Leading(y: int): int
    requires y >= WORD
  {
    y / Pow2(Places(y))
  }

  lemma LeadingRange(y: int)
    requires WORD <= y < WORD2
    ensures Places(y) <= 32 && 0x8000_0000 <= Leading(y) < WORD
  {
    var h := HighestBit(y / WORD);
    var p := Pow2(h);
    Pow2Of32();
    QuotientBetween(y, WORD, 1, WORD);
    Euclid(y, WORD);
    if h > 31 { Pow2Mono(31, h); }
    QuotientBetween(y, 2 * p, 0x8000_0000, WORD);
  }

  // The instruction is asked for the quotient by the leading digits plus one, which is never
  // too large and at most two too small.
  lemma Estimate(x: int, y: int, q: int)
    requires 0 <= x < WORD2 && WORD <= y < WORD2
    requires Leading(y) + 1 < WORD && q == x / Pow2(Places(y)) / (Leading(y) + 1)
    ensures 0 <= q < WORD && q * y <= x < (q + 3) * y
  {
    LeadingRange(y);
    HalfRange(x, Places(y));
    hide Places;
    EstimateBy(x, y, Pow2(Places(y)), x / Pow2(Places(y)), Leading(y), q);
  }

  lemma EstimateBy(x: int, y: int, p: int, xs: int, y0: int, q: int)
    requires p >= 1 && 0 <= xs < WORD2 / 2 && 0x8000_0000 <= y0
    requires xs == x / p && y0 == y / p && q == xs / (y0 + 1)
    ensures 0 <= q < WORD && q * y <= x < (q + 3) * y
  {
    Euclid(xs, y0 + 1);
    Euclid(y, p);
    Euclid(x, p);
    assert (y0 + 1) * WORD >= 0x8000_0001 * WORD;
    QuotientBetween(xs, y0 + 1, 0, WORD);
    assert p * (y0 + 1) == p * y0 + p && p * (xs + 1) == p * xs + p;
    Under(x, y, xs, y0, p, q);
    Over(x, y, xs, y0, p, q);
  }

  lemma HalfRange(x: int, l: nat)
    requires 0 <= x < WORD2 && 1 <= l
    ensures 0 <= x / Pow2(l) < WORD2 / 2
  {
    var p := Pow2(l);
    assert p >= 2;
    Scale(WORD2 / 2, 2, p);
    QuotientBetween(x, p, 0, WORD2 / 2);
  }

  lemma Under(x: int, y: int, xs: int, y0: int, p: int, q: int)
    requires p >= 1 && q >= 0 && q * (y0 + 1) <= xs && p * xs <= x && y < p * (y0 + 1)
    ensures q * y <= x
  {
    Scale(q, y, p * (y0 + 1));
    Scale(p, q * (y0 + 1), xs);
    assert q * (p * (y0 + 1)) == p * (q * (y0 + 1));
  }

  lemma Over(x: int, y: int, xs: int, y0: int, p: int, q: int)
    requires p >= 1 && 0 <= q < WORD && y0 >= 0x8000_0000 && xs <= q * (y0 + 1) + y0 && x < p * (xs + 1) && y >= p * y0
    ensures x < (q + 3) * y
  {
    assert (q + 3) * y0 == q * y0 + 3 * y0;
    assert q * (y0 + 1) == q * y0 + q;
    assert xs + 1 <= (q + 3) * y0;
    Scale(p, xs + 1, (q + 3) * y0);
    Scale(q + 3, p * y0, y);
    assert (q + 3) * (p * y0) == p * ((q + 3) * y0);
  }

  // The branch for divisors of more than 32 bits. The upper half of the shifted dividend is
  // below the divisor, so the instruction does not trap unless adding one to the leading
  // digits wraps round to 0.
  method DivLong(x: int, y: int) returns (res: Result, ghost corrections: nat)
    requires 0 <= x < WORD2 && WORD <= y < WORD2
    ensures res.Trap? <==> Leading(y) == WORD - 1
    ensures res.Quotient? ==> x == res.q * y + res.r && 0 <= res.r < y
    ensures corrections <= 2
  {
    var l := HighestBit(y / WORD) + 1;
    LeadingRange(y);
    HalfRange(x, l);
    var y0 := y / Pow2(l);
    var xs := x / Pow2(l);
    var x1, x0 := xs / WORD, xs % WORD;
    Euclid(xs, WORD);
    QuotientBetween(xs, WORD, 0, 0x8000_0000);
    var d := (y0 + 1) % WORD;
    if y0 + 1 == WORD { QuotientIs(y0 + 1, WORD, 1, 0); } else { QuotientIs(y0 + 1, WORD, 0, y0 + 1); }
    var div := DivL(x1, x0, d);
    if div.Trap? {
      return Trap, 0;
    }
    QuotientIs(xs, d, div.q, div.r);
    Estimate(x, y, div.q);
    var r;
    x0, r, corrections := Correct(x, y, div.q);
    res := Quotient(x0, r);
  }

  method Correct(x: int, y: int, q: int) returns (x0: int, r: int, ghost corrections: nat)
    requires y >= 1 && q * y <= x < (q + 3) * y
    ensures x == x0 * y + r && 0 <= r < y && corrections <= 2 && x0 == q + corrections
  {
    assert (q + 3) * y == y * q + 3 * y;
    x0, r, corrections := q, x - y * q, 0;
    while r >= y
      invariant x == y * x0 + r && 0 <= r && x0 == q + corrections && corrections <= 2
      invariant corrections == 0 ==> r < 3 * y
      invariant corrections == 1 ==> r < 2 * y
      invariant corrections == 2 ==> r < y
      decreases 2 - corrections
    {
      assert y * (x0 + 1) == y * x0 + y;
      x0 := x0 + 1;
      r := r - y;
      corrections := corrections + 1;
    }
  }

  method DoDiv64(x: int, y: int) returns (res: Result, ghost corrections: nat)
    requires 0 <= x < WORD2 && 0 <= y < WORD2
    ensures res.Trap? <==> y >= WORD && Leading(y) == WORD - 1
    ensures y >= 1 && res.Quotient? ==> x == res.q * y + res.r && 0 <= res.r < y
    ensures y == 0 ==> res == Quotient(0, x)
    ensures corrections <= 2
  {
    corrections := 0;
    var y1, y0, x1, x0 := y / WORD, y % WORD, x / WORD, x % WORD;
    Euclid(x, WORD);
    Euclid(y, WORD);
    QuotientBetween(x, WORD, 0, WORD);
    if y1 != 0 {
      res, corrections := DivLong(x, y);
    } else if x1 < y0 {
      res := DivL(x1, x0, y0);
    } else if y0 != 0 {
      var high := DivL(0, x1, y0);
      var low := DivL(high.r, x0, y0);
      TwoDigits(x, y0, x1, x0, high.q, high.r, low.q, low.r);
      res := Quotient(high.q * WORD + low.q, low.r);
    } else {
      res := Quotient(0, x);
    }
  }

  // Schoolbook division, one 32-bit digit after the other.
  lemma TwoDigits(x: int, d: int, x1: int, x0: int, q1: int, r1: int, q0: int, r0: int)
    requires x == x1 * WORD + x0 && x1 == d * q1 + r1 && r1 * WORD + x0 == d * q0 + r0
    ensures x == (q1 * WORD + q0) * d + r0
  {}

  // The inputs on which do_div64 traps: the greatest divisor is one of them.
  lemma GreatestDivisorTraps()
    ensures Leading(WORD2 - 1) == WORD - 1
  {
    Pow2Of32();
    HighestBitUnique(WORD - 1, 31);
  }

  // ---- The user library's div64

  method Div64(num: int, den: int) returns (q: int, rem: int)
    requires 0 <= num < WORD2 && 0 <= den < WORD2
    ensures den == 0 ==> q == 0 && rem == num
    ensures den >= 1 ==> num == q * den + rem && 0 <= rem < den
  {
    var x, div, mul := num, den, 1;
    if div > x || div == 0 {
      return 0, x;
    }
    ghost var k: nat := 0;
    while div / WORD < 0x8000_0000
      invariant den <= div <= x && div == den * mul && mul == Pow2(k)
      decreases x - div
    {
      DoubleFits(div);
      var newd := (div + div) % WORD2;
      if newd > x {
        break;
      }
      assert den * (mul + mul) == den * mul + den * mul;
      div := newd;
      mul := mul + mul;
      k := k + 1;
    }
    TopBit(div);
    q := mul;
    x := x - div;
    q, x := Descend(num, den, q, x, div, mul, k);
    return q, x;
  }

  // Doubling does not wrap while the top bit is clear.
  lemma DoubleFits(div: int)
    requires 0 <= div && div / WORD < 0x8000_0000
    ensures (div + div) % WORD2 == div + div
  {
    Euclid(div, WORD);
    QuotientIs(div + div, WORD2, 0, div + div);
  }

  lemma TopBit(div: int)
    ensures div / WORD >= 0x8000_0000 ==> div >= WORD2 / 2
  {
    Euclid(div, WORD);
  }

  // The second loop: from the greatest shifted divisor down to the divisor itself.
  method Descend(num: int, den: int, q0: int, x0: int, div0: int, mul0: int, ghost k0: nat) returns (q: int, x: int)
    requires den >= 1 && num == den * q0 + x0 && 0 <= x0 < div0 && div0 == den * mul0 && mul0 == Pow2(k0)
    ensures num == q * den + x && 0 <= x < den
  {
    var div, mul;
    ghost var k := k0;
    q, x, div, mul := q0, x0, div0, mul0;
    while true
      invariant num == den * q + x && 0 <= x < div && div == den * mul && mul == Pow2(k)
      decreases k
    {
      Halve(den, mul, k);
      mul := mul / 2;
      div := div / 2;
      if mul == 0 {
        return q, x;
      }
      k := k - 1;
      if x < div {
        continue;
      }
      assert den * (q + mul) == den * q + den * mul;
      q := q + mul;
      x := x - div;
    }
  }

  lemma Halve(d: int, m: int, k: nat)
    requires d >= 1 && m == Pow2(k)
    ensures k == 0 ==> m / 2 == 0 && d * m == d
    ensures k > 0 ==> m / 2 == Pow2(k - 1) && m / 2 >= 1 && d * m == 2 * (d * (m / 2)) && d * m / 2 == d * (m / 2)
  {
    if k > 0 { HalfProduct(d, Pow2(k - 1)); }
  }

  lemma HalfProduct(d: int, h: int)
    ensures d * (2 * h) == 2 * (d * h) && d * (2 * h) / 2 == d * h
  {
    QuotientIs(d * (2 * h), 2, d * h, 0);
  }

  // Both compute the one quotient and remainder there is.
  lemma Agree(x: int, y: int, q: int, r: int, q': int, r': int)
    requires y >= 1 && x == q * y + r && 0 <= r < y && x == q' * y + r' && 0 <= r' < y
    ensures q == q' == x / y && r == r' == x % y
  {
    QuotientIs(x, y, q, r);
    QuotientIs(x, y, q', r');
  }

  // Run on the same operands the two give the same answer.
  method SameAnswer(x: int, y: int) returns (same: bool)
    requires 0 <= x < WORD2 && 0 <= y < WORD2
    requires !(y >= WORD && Leading(y) == WORD - 1)
    ensures same
  {
    var res, corrections := DoDiv64(x, y);
    var q, r := Div64(x, y);
    if y >= 1 { Agree(x, y, res.q, res.r, q, r); }
    same := res == Quotient(q, r);
  }
}
