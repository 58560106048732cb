// 32-bit words, powers of two, and the few facts of arithmetic every module needs.
module Words {

  const WORD := 0x1_0000_0000

  type Byte = x: int | 0 <= x < 256

  datatype Option<T> = None | Some(value: T)

  predicate NoDup<T(==)>(q: seq<T>) {
    forall i, j :: 0 <= i < j < |q| ==> q[i] != q[j]
  }

  function Pow2(n: nat): (r: int)
    ensures r >= 1
  {
    if n == 0 then 1 else 2 * Pow2(n - 1)
  }

  lemma {:induction false} Pow2Mono(i: nat, j: nat)
    requires i < j
    ensures 2 * Pow2(i) <= Pow2(j)
  {
    if i + 1 < j { Pow2Mono(i, j - 1); }
  }

  lemma {:induction false} Pow2Add(m: nat, n: nat)
    ensures Pow2(m + n) == Pow2(m) * Pow2(n)
  {
    if m > 0 {
      Pow2Add(m - 1, n);
      assert Pow2(m + n) == 2 * Pow2(m - 1 + n);
    }
  }

  lemma Pow2Of32()
    ensures Pow2(27) == 0x800_0000 && Pow2(31) == 0x8000_0000 && Pow2(32) == WORD
  {
    assert Pow2(4) == 16;
    assert Pow2(8) == 256;
    assert Pow2(12) == 4096;
    assert Pow2(16) == 65536;
    assert Pow2(20) == 0x10_0000;
    assert Pow2(24) == 0x100_0000;
    assert Pow2(28) == 0x1000_0000;
  }

  // The `bsr` instruction: position of the highest set bit.
  function HighestBit(x: int): (m: nat)
    requires x >= 1
    ensures Pow2(m) <= x < 2 * Pow2(m)
  {
    if x == 1 then 0 else HighestBit(x / 2) + 1
  }

  lemma HighestBitUnique(x: int, m: nat)
    requires x >= 1 && Pow2(m) <= x < 2 * Pow2(m)
    ensures HighestBit(x) == m
  {
    var h := HighestBit(x);
    if h < m { Pow2Mono(h, m); } else if m < h { Pow2Mono(m, h); }
  }

  lemma MulAtLeast(p: int, d: int)
    requires p >= 1 && d >= 1
    ensures p * d >= p
  {}

  // Quotient and remainder are determined by their equation.
  lemma QuotientIs(x: int, p: int, q: int, r: int)
    requires p >= 1 && 0 <= r < p && x == p * q + r
    ensures x / p == q && x % p == r
  {
    var q', r' := x / p, x % p;
    assert p * (q - q') == r' - r;
    if q > q' { MulAtLeast(p, q - q'); }
    if q < q' { MulAtLeast(p, q' - q); }
  }

  lemma Euclid(x: int, p: int)
    requires p >= 1
    ensures x == p * (x / p) + x % p && 0 <= x % p < p
  {}

  lemma Scale(p: int, a: int, b: int)
    requires p >= 0 && a <= b
    ensures p * a <= p * b
  {}

  lemma QuotientBetween(x: int, p: int, lo: int, hi: int)
    requires p >= 1 && p * lo <= x < p * hi
    ensures lo <= x / p < hi
  {
    var q := x / p;
    Euclid(x, p);
    assert p * (q + 1) == p * q + p;
    if q < lo { Scale(p, q + 1, lo); }
    if q >= hi { Scale(p, hi, q); }
  }
}
