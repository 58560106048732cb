// Size classes of the bins and the bitmap that summarises which of them may be non-empty.
module BinIndex {

  import opened Words

  const NBINS := 96
  const NSMALLBINS := 32
  const MIN_LARGE_SIZE := 256

  // ---- The portable branch of largebin_index, on 32-bit words

  function Sub32(x: int, y: int): int {
    (x - y) % 0x1_0000_0000
  }

  function Shl32(x: int, n: nat): int {
    x * Pow2(n) % 0x1_0000_0000
  }

  // v & b for a single-bit mask b
  function MaskBit(v: int, b: int): int
    requires b >= 1
  {
    if v / b % 2 == 1 then b else 0
  }

  // x & ~(x >> 1) for a two-bit value x
  function TopOfTwo(x: int): int {
    if x / 2 % 2 == 1 then 2 else x % 2
  }

  function BranchFreeLog2(x: int): int
    requires 1 <= x < 0x10000
  {
    var n := MaskBit(Sub32(x, 0x100) / 0x10000, 8);
    var x1 := Shl32(x, n);
    var m1 := MaskBit(Sub32(x1, 0x1000) / 0x10000, 4);
    var x2 := Shl32(x1, m1);
    var m2 := MaskBit(Sub32(x2, 0x4000) / 0x10000, 2);
    var x3 := Shl32(x2, m2) / 0x4000;
    13 - (n + m1 + m2) + TopOfTwo(x3)
  }

  lemma Pow2Values()
    ensures Pow2(0) == 1 && Pow2(1) == 2 && Pow2(2) == 4 && Pow2(3) == 8 && Pow2(4) == 16
    ensures Pow2(5) == 32 && Pow2(6) == 64 && Pow2(7) == 128 && Pow2(8) == 256 && Pow2(9) == 512
    ensures Pow2(10) == 1024 && Pow2(11) == 2048 && Pow2(12) == 4096 && Pow2(13) == 8192
    ensures Pow2(14) == 16384 && Pow2(15) == 32768 && Pow2(16) == 65536
  {
    assert Pow2(4) == 16;
    assert Pow2(8) == 256;
    assert Pow2(12) == 4096;
  }

  // The borrow of x - y, seen in bit b of the upper half.
  lemma Borrow(x: int, y: int, b: int)
    requires 0 <= x < 0x10000 && 0 < y < 0x10000 && (b == 2 || b == 4 || b == 8)
    ensures MaskBit(Sub32(x, y) / 0x10000, b) == if x < y then b else 0
  {
    if x < y {
      QuotientIs(x - y, 0x1_0000_0000, -1, x - y + 0x1_0000_0000);
      QuotientIs(x - y + 0x1_0000_0000, 0x10000, 0xffff, x - y + 0x10000);
    } else {
      QuotientIs(x - y, 0x1_0000_0000, 0, x - y);
      QuotientIs(x - y, 0x10000, 0, x - y);
    }
  }

  lemma Shifted(x: int, n: nat)
    requires 0 <= x && x * Pow2(n) < 0x1_0000_0000
    ensures Shl32(x, n) == x * Pow2(n)
  {
    QuotientIs(x * Pow2(n), 0x1_0000_0000, 0, x * Pow2(n));
  }

  lemma FirstStep(x: int) returns (n: nat, x': int)
    requires 1 <= x < 0x10000
    ensures n == MaskBit(Sub32(x, 0x100) / 0x10000, 8) && x' == Shl32(x, n) && 0x100 <= x' < 0x10000
    ensures (n == 8 && x' == 256 * x) || (n == 0 && x' == x)
  {
    hide Sub32, Shl32, MaskBit;
    n, x' := if x < 0x100 then 8 else 0, if x < 0x100 then 256 * x else x;
    assert Pow2(8) == 256 by { Pow2Values(); }
    Borrow(x, 0x100, 8);
    Shifted(x, n);
  }

  lemma SecondStep(x: int) returns (n: nat, x': int)
    requires 0x100 <= x < 0x10000
    ensures n == MaskBit(Sub32(x, 0x1000) / 0x10000, 4) && x' == Shl32(x, n) && 0x1000 <= x' < 0x10000
    ensures (n == 4 && x' == 16 * x) || (n == 0 && x' == x)
  {
    hide Sub32, Shl32, MaskBit;
    n, x' := if x < 0x1000 then 4 else 0, if x < 0x1000 then 16 * x else x;
    assert Pow2(4) == 16;
    Borrow(x, 0x1000, 4);
    Shifted(x, n);
  }

  lemma ThirdStep(x: int) returns (n: nat, x': int)
    requires 0x1000 <= x < 0x10000
    ensures n == MaskBit(Sub32(x, 0x4000) / 0x10000, 2) && x' == Shl32(x, n) && 0x4000 <= x' < 0x10000
    ensures (n == 2 && x' == 4 * x) || (n == 0 && x' == x)
  {
    hide Sub32, Shl32, MaskBit;
    n, x' := if x < 0x4000 then 2 else 0, if x < 0x4000 then 4 * x else x;
    assert Pow2(2) == 4;
    Borrow(x, 0x4000, 2);
    Shifted(x, n);
  }

  lemma RangeOf(x: int, n: nat, x1: int, m1: nat, x2: int, m2: nat, x3: int, t: nat)
    requires (n == 8 && x1 == 256 * x) || (n == 0 && x1 == x)
    requires (m1 == 4 && x2 == 16 * x1) || (m1 == 0 && x2 == x1)
    requires (m2 == 2 && x3 == 4 * x2) || (m2 == 0 && x3 == x2)
    requires if x3 >= 0x8000 then t == 2 && x3 < 0x10000 else t == 1 && 0x4000 <= x3
    ensures Pow2(t + 13 - (n + m1 + m2)) <= x < 2 * Pow2(t + 13 - (n + m1 + m2))
  {
    Pow2Values();
  }

  // The two implementations of the highest-bit search in largebin_index agree.
  lemma BranchFreeIsHighestBit(x: int)
    requires 1 <= x < 0x10000
    ensures BranchFreeLog2(x) == HighestBit(x)
  {
    var n, x1 := FirstStep(x);
    var m1, x2 := SecondStep(x1);
    var m2, x3 := ThirdStep(x2);
    var t := if x3 >= 0x8000 then 2 else 1;
    assert TopOfTwo(x3 / 0x4000) == t;
    RangeOf(x, n, x1, m1, x2, m2, x3, t);
    HighestBitUnique(x, t + 13 - (n + m1 + m2));
  }

  // ---- bin_index

  function LargeBinIndex(sz: int): int
    requires sz >= MIN_LARGE_SIZE
  {
    var x := sz / 256;
    if x >= 0x10000 then NBINS - 1
    else
      var m := HighestBit(x);
      NSMALLBINS + 4 * m + sz / Pow2(m + 6) % 4
  }

  function BinOf(sz: int): int {
    if sz < MIN_LARGE_SIZE then sz / 8 else LargeBinIndex(sz)
  }

  lemma {:induction false} HighestBitBound(x: int, n: nat)
    requires 1 <= x < Pow2(n)
    ensures HighestBit(x) < n
  {
    var m := HighestBit(x);
    if m >= n && m > n { Pow2Mono(n, m); }
  }

  lemma LargeBinShape(sz: int, m: nat)
    requires sz >= MIN_LARGE_SIZE && sz / 256 < 0x10000 && m == HighestBit(sz / 256)
    ensures 4 <= sz / Pow2(m + 6) < 8 && m < 16
    ensures LargeBinIndex(sz) == 28 + 4 * m + sz / Pow2(m + 6)
  {
    assert 256 * Pow2(m) <= sz < 512 * Pow2(m);
    Pow2Add(6, m);
    assert Pow2(6) == 64 && Pow2(16) == 0x10000 by { Pow2Values(); }
    DivBetween(sz, Pow2(m + 6), 4, 8);
    HighestBitBound(sz / 256, 16);
    QuarterOf(sz / Pow2(m + 6));
  }

  lemma QuarterOf(q: int)
    requires 4 <= q < 8
    ensures q % 4 == q - 4
  {}

  lemma MulCancel(a: int, b: int, d: int)
    requires d >= 1 && a * d < b * d
    ensures a < b
  {}

  lemma DivBetween(s: int, d: int, lo: int, hi: int)
    requires d >= 1 && lo * d <= s < hi * d
    ensures lo <= s / d < hi
  {
    var q := s / d;
    assert s == q * d + s % d;
    assert (q + 1) * d == q * d + d;
    MulCancel(q, hi, d);
    MulCancel(lo, q + 1, d);
  }

  lemma DivMono(a: int, b: int, d: int)
    requires d >= 1 && a <= b
    ensures a / d <= b / d
  {
    var q, r := a / d, b / d;
    assert a == q * d + a % d;
    assert b == r * d + b % d;
    assert (r + 1) * d == r * d + d;
    MulCancel(q, r + 1, d);
  }

  lemma HighestBitMono(x: int, y: int)
    requires 1 <= x <= y
    ensures HighestBit(x) <= HighestBit(y)
  {
    if HighestBit(y) < HighestBit(x) { Pow2Mono(HighestBit(y), HighestBit(x)); }
  }

  lemma BinOfRange(sz: int)
    requires sz >= 16
    ensures 2 <= BinOf(sz) < NBINS
    ensures sz < MIN_LARGE_SIZE <==> BinOf(sz) < NSMALLBINS
  {
    if sz >= MIN_LARGE_SIZE && sz / 256 < 0x10000 {
      LargeBinShape(sz, HighestBit(sz / 256));
    }
  }

  lemma LargeBinMonotone(a: int, b: int)
    requires MIN_LARGE_SIZE <= a <= b
    ensures LargeBinIndex(a) <= LargeBinIndex(b)
  {
    BinOfRange(a);
    if b / 256 < 0x10000 {
      var m, n := HighestBit(a / 256), HighestBit(b / 256);
      LargeBinShape(a, m);
      LargeBinShape(b, n);
      HighestBitMono(a / 256, b / 256);
      if m == n { DivMono(a, b, Pow2(m + 6)); }
    }
  }

  // The size classes in numbers: steps of 8 bytes below 256, then four equal steps for every
  // power of two, and one bin for all from 16 megabytes up.
  lemma SizeClasses(sz: int, n: nat, k: int)
    ensures 0 <= sz < 256 ==> 8 * BinOf(sz) <= sz < 8 * BinOf(sz) + 8
    ensures 6 <= n < 22 && 4 <= k < 8 && k * Pow2(n) <= sz < (k + 1) * Pow2(n) ==> BinOf(sz) == 4 * n + k + 4
    ensures sz >= 0x100_0000 ==> BinOf(sz) == 95
  {
    if 6 <= n < 22 && 4 <= k < 8 && k * Pow2(n) <= sz < (k + 1) * Pow2(n) {
      QuarterBin(sz, n - 6, k);
    }
  }

  lemma QuarterBin(sz: int, m: nat, k: int)
    requires m < 16 && 4 <= k < 8 && k * Pow2(m + 6) <= sz < (k + 1) * Pow2(m + 6)
    ensures BinOf(sz) == 4 * m + k + 28
  {
    var w := Pow2(m);
    assert Pow2(m + 6) == 64 * w by {
      Pow2Add(6, m);
      Pow2Values();
    }
    assert 1 <= w <= 0x8000 by {
      if m < 15 { Pow2Mono(m, 15); }
      Pow2Values();
    }
    InQuarter(sz, w, k);
    HighestBitUnique(sz / 256, m);
    LargeBinShape(sz, m);
    DivBetween(sz, Pow2(m + 6), k, k + 1);
  }

  lemma InQuarter(sz: int, w: int, k: int)
    requires 1 <= w <= 0x8000 && 4 <= k < 8 && k * (64 * w) <= sz < (k + 1) * (64 * w)
    ensures w <= sz / 256 < 2 * w && sz >= 256
  {
    assert 256 * w <= sz < 512 * w;
  }

  // Larger chunks never belong to an earlier bin.
  lemma BinOfMonotone(a: int, b: int)
    requires 16 <= a <= b
    ensures BinOf(a) <= BinOf(b)
  {
    BinOfRange(a);
    BinOfRange(b);
    if a >= MIN_LARGE_SIZE {
      LargeBinMonotone(a, b);
    }
  }

  // ---- One word of the bitmap, as its 32 bits

  type Word = w: seq<bool> | |w| == 32 witness seq(32, _ => false)

  // The unsigned value of bits lo.. of a word, scaled to bit lo.
  function Value(w: seq<bool>): (r: int)
    ensures r >= 0
  {
    if w == [] then 0 else (if w[0] then 1 else 0) + 2 * Value(w[1..])
  }

  // `bit > map` for bit = 1 << k holds exactly when no bit from k on is set.
  lemma {:induction false} NoBitFrom(w: seq<bool>, k: nat)
    requires k <= |w|
    ensures Value(w) < Pow2(k) <==> forall j | k <= j < |w| :: !w[j]
  {
    if k == 0 {
      ValueZero(w);
    } else {
      NoBitFrom(w[1..], k - 1);
      assert forall j | 1 <= j < |w| :: w[j] == w[1..][j - 1];
      assert Value(w) < Pow2(k) <==> Value(w[1..]) < Pow2(k - 1);
      if forall j | k <= j < |w| :: !w[j] {
        forall j | k - 1 <= j < |w[1..]| ensures !w[1..][j] { assert w[1..][j] == w[j + 1]; }
      }
    }
  }

  lemma {:induction false} ValueZero(w: seq<bool>)
    ensures Value(w) == 0 <==> forall j | 0 <= j < |w| :: !w[j]
  {
    if w != [] {
      ValueZero(w[1..]);
      if forall j | 0 <= j < |w| :: !w[j] {
        forall j | 0 <= j < |w[1..]| ensures !w[1..][j] { assert w[1..][j] == w[j + 1]; }
      } else if Value(w) == 0 {
        forall j | 0 <= j < |w| ensures !w[j] { if j > 0 { assert w[j] == w[1..][j - 1]; } }
      }
    }
  }
}
