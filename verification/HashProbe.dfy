// The probe sequence of the hash table and the argument that it visits every slot.
module HashProbe {

  import opened Words

  // `index` and `perturb` of hash_lookup after n steps, as unsigned 32-bit words.
  function Perturb(hash: int, n: nat): (r: int)
    ensures 0 <= r < WORD
  {
    if n == 0 then hash % WORD else Perturb(hash, n - 1) / 32
  }

  function Index(hash: int, size: int, n: nat): (r: int)
    requires size >= 1
    ensures 0 <= r
  {
    if n == 0 then hash % WORD % size
    else (5 * Index(hash, size, n - 1) + Perturb(hash, n - 1) + 1) % WORD
  }

  // The slot examined in step n: index & mask.
  function Probe(hash: int, size: int, n: nat): (r: int)
    requires size >= 1
    ensures 0 <= r < size
  {
    Index(hash, size, n) % size
  }

  lemma FirstProbe(hash: int, size: int)
    requires size >= 1
    ensures Perturb(hash, 0) == hash % WORD && Index(hash, size, 0) == hash % WORD % size == Probe(hash, size, 0)
  {
    QuotientIs(hash % WORD % size, size, 0, hash % WORD % size);
  }

  lemma NextProbe(hash: int, size: int, n: nat)
    requires size >= 1
    ensures Perturb(hash, n + 1) == Perturb(hash, n) / 32
    ensures Index(hash, size, n + 1) == (5 * Index(hash, size, n) + Perturb(hash, n) + 1) % WORD
    ensures Probe(hash, size, n + 1) == Index(hash, size, n + 1) % size
  {}

  // ---- The orbit of i -> 5*i + 1 modulo a power of two

  function Orbit(n: nat, i: int): int {
    if n == 0 then i else 5 * Orbit(n - 1, i) + 1
  }

  function S(n: nat): int {
    Orbit(n, 0)
  }

  lemma {:induction false} OrbitAdd(m: nat, n: nat, i: int)
    ensures Orbit(m + n, i) == Orbit(m, Orbit(n, i))
  {
    if m > 0 {
      OrbitAdd(m - 1, n, i);
      assert Orbit(m + n, i) == 5 * Orbit(m + n - 1, i) + 1;
    }
  }

  lemma {:induction false} OrbitLinear(n: nat, i: int)
    ensures Orbit(n, i) == i + (4 * i + 1) * S(n)
  {
    if n > 0 {
      OrbitLinear(n - 1, i);
      assert S(n) == 5 * S(n - 1) + 1;
      assert (4 * i + 1) * S(n) == 5 * ((4 * i + 1) * S(n - 1)) + (4 * i + 1);
    }
  }

  lemma SDouble(n: nat)
    ensures S(2 * n) == 2 * (S(n) * (2 * S(n) + 1))
  {
    OrbitAdd(n, n, 0);
    OrbitLinear(n, S(n));
  }

  lemma {:induction false} SParity(n: nat)
    ensures S(n) % 2 == n % 2
  {
    if n > 0 {
      SParity(n - 1);
      ParityStep(S(n - 1));
    }
  }

  lemma ParityStep(x: int)
    ensures (5 * x + 1) % 2 == 1 - x % 2
  {
    if x % 2 == 0 {
      QuotientIs(5 * x + 1, 2, 5 * (x / 2), 1);
    } else {
      QuotientIs(5 * x + 1, 2, 5 * (x / 2) + 3, 0);
    }
  }

  // 2^k divides x
  predicate DivPow(x: int, k: nat)
    decreases k
  {
    k == 0 || (x % 2 == 0 && DivPow(x / 2, k - 1))
  }

  lemma {:induction false} DivPowMeans(x: int, k: nat)
    ensures DivPow(x, k) <==> x % Pow2(k) == 0
    decreases k
  {
    if k > 0 {
      DivPowMeans(x / 2, k - 1);
      HalveMod(x, Pow2(k - 1));
    }
  }

  lemma HalveMod(x: int, p: int)
    requires p >= 1
    ensures x % (2 * p) == 0 <==> x % 2 == 0 && x / 2 % p == 0
  {
    var q, r := x / (2 * p), x % (2 * p);
    assert x == 2 * (p * q) + r;
    if r == 0 {
      assert x / 2 == p * q;
      ModMultiple(q, p);
    }
    if x % 2 == 0 && x / 2 % p == 0 {
      var y := x / 2 / p;
      assert x / 2 == p * y;
      assert x == (2 * p) * y;
      ModMultiple(y, 2 * p);
    }
  }

  lemma ModMultiple(q: int, p: int)
    requires p >= 1
    ensures (p * q) % p == 0
  {
    QuotientIs(p * q, p, q, 0);
  }

  // An odd factor does not contribute to the power of two.
  lemma {:induction false} OddCancel(a: int, b: int, k: nat)
    requires DivPow(a * (2 * b + 1), k)
    ensures DivPow(a, k)
    decreases k
  {
    if k > 0 {
      OddHalf(a, b);
      OddCancel(a / 2, b, k - 1);
    }
  }

  lemma OddHalf(a: int, b: int)
    requires a * (2 * b + 1) % 2 == 0
    ensures a % 2 == 0 && a * (2 * b + 1) / 2 == a / 2 * (2 * b + 1)
  {
    var q := a / 2;
    Distribute(a, b);
    if a % 2 == 0 {
      Distribute(q, b);
      assert a * b == 2 * (q * b);
      QuotientIs(a * (2 * b + 1), 2, q * (2 * b + 1), 0);
    } else {
      QuotientIs(a * (2 * b + 1), 2, a * b + q, 1);
    }
  }

  lemma Distribute(a: int, b: int)
    ensures a * (2 * b + 1) == 2 * (a * b) + a
  {}

  // The period of the orbit modulo 2^k is 2^k.
  lemma {:induction false} PeriodDivides(n: nat, k: nat)
    requires DivPow(S(n), k)
    ensures DivPow(n, k)
    decreases k
  {
    if k > 0 {
      SParity(n);
      var m := n / 2;
      SDouble(m);
      OddCancel(S(m), S(m), k - 1);
      PeriodDivides(m, k - 1);
    }
  }

  lemma {:induction false} SmallMultiple(n: int, k: nat)
    requires 0 <= n < Pow2(k) && DivPow(n, k)
    ensures n == 0
  {
    if k > 0 { SmallMultiple(n / 2, k - 1); }
  }

  lemma ModEqual(x: int, y: int, p: int)
    requires p >= 1 && x % p == y % p
    ensures (x - y) % p == 0
  {
    assert x - y == p * (x / p - y / p);
    ModMultiple(x / p - y / p, p);
  }

  // Two different steps within one period are in different slots.
  lemma OrbitInjective(i: int, m: nat, n: nat, k: nat)
    requires m < n < m + Pow2(k)
    ensures Orbit(m, i) % Pow2(k) != Orbit(n, i) % Pow2(k)
  {
    if Orbit(m, i) % Pow2(k) == Orbit(n, i) % Pow2(k) {
      OrbitGap(i, m, n, k);
      SmallMultiple(n - m, k);
    }
  }

  lemma OrbitGap(i: int, m: nat, n: nat, k: nat)
    requires m < n && Orbit(m, i) % Pow2(k) == Orbit(n, i) % Pow2(k)
    ensures DivPow(n - m, k)
  {
    var x, d := Orbit(m, i), n - m;
    ModEqual(Orbit(n, i), x, Pow2(k));
    DivPowMeans(Orbit(n, i) - x, k);
    OrbitAdd(d, m, i);
    OrbitLinear(d, x);
    OddProduct(x, S(d));
    OddCancel(S(d), 2 * x, k);
    PeriodDivides(d, k);
  }

  lemma OddProduct(x: int, s: int)
    ensures (4 * x + 1) * s == s * (2 * (2 * x) + 1)
  {}

  function Slots(i: int, k: nat, n: nat): set<int> {
    set j | 0 <= j < n :: Orbit(j, i) % Pow2(k)
  }

  function Below(n: nat): (r: set<int>)
    ensures |r| == n && forall j :: j in r <==> 0 <= j < n
  {
    if n == 0 then {} else Below(n - 1) + {n - 1}
  }

  lemma {:induction false} SlotsSize(i: int, k: nat, n: nat)
    requires n <= Pow2(k)
    ensures |Slots(i, k, n)| == n
  {
    if n > 0 {
      SlotsSize(i, k, n - 1);
      var x := Orbit(n - 1, i) % Pow2(k);
      assert Slots(i, k, n) == Slots(i, k, n - 1) + {x};
      if x in Slots(i, k, n - 1) {
        var j :| 0 <= j < n - 1 && Orbit(j, i) % Pow2(k) == x;
        OrbitInjective(i, j, n - 1, k);
      }
    }
  }

  lemma SubsetSameSize(a: set<int>, b: set<int>)
    requires a <= b && |a| == |b|
    ensures a == b
  {
    assert |b| == |a| + |b - a| by { assert b == a + (b - a); }
  }

  // Every slot is visited within one period.
  lemma OrbitCovers(i: int, k: nat, t: int) returns (j: nat)
    requires 0 <= t < Pow2(k)
    ensures j < Pow2(k) && Orbit(j, i) % Pow2(k) == t
  {
    var p := Pow2(k);
    SlotsSize(i, k, p);
    SubsetSameSize(Slots(i, k, p), Below(p));
    assert t in Below(p);
    j :| 0 <= j < p && Orbit(j, i) % p == t;
  }

  // ---- From the orbit to the probe sequence

  // After n steps the lowest 5 * n bits of the hash have been used.
  lemma {:induction false} PerturbShifts(hash: int, n: nat)
    ensures Perturb(hash, n) == hash % WORD / Pow2(5 * n)
  {
    if n > 0 {
      PerturbShifts(hash, n - 1);
      Pow2Add(5, 5 * (n - 1));
      assert Pow2(5) == 32;
      DivTwice(hash % WORD, Pow2(5 * (n - 1)), 32);
    }
  }

  lemma DivTwice(x: int, a: int, b: int)
    requires x >= 0 && a >= 1 && b >= 1
    ensures a * b >= 1 && x / a / b == x / (a * b)
  {
    var q, r := x / a, x % a;
    Euclid(x, a);
    Euclid(q, b);
    MulAtLeast(a, b);
    var s := q % b;
    assert a * s + r < a * b by { Scale(a, s + 1, b); }
    assert x == a * b * (q / b) + (a * s + r);
    QuotientIs(x, a * b, q / b, a * s + r);
  }

  lemma PerturbVanishes(hash: int, n: nat)
    requires n >= 7
    ensures Perturb(hash, n) == 0
  {
    var p := Perturb(hash, 0);
    assert Perturb(hash, 1) < 0x800_0000;
    assert Perturb(hash, 2) < 0x40_0000;
    assert Perturb(hash, 3) < 0x2_0000;
    assert Perturb(hash, 4) < 0x1000;
    assert Perturb(hash, 5) < 0x80;
    assert Perturb(hash, 6) < 4;
    PerturbStays(hash, 7, n);
  }

  lemma {:induction false} PerturbStays(hash: int, m: nat, n: nat)
    requires m <= n && Perturb(hash, m) == 0
    ensures Perturb(hash, n) == 0
  {
    if m < n { PerturbStays(hash, m, n - 1); }
  }

  // Taking words modulo 2^32 first does not change the slot.
  lemma ModMod(x: int, k: nat)
    requires k <= 32
    ensures x % WORD % Pow2(k) == x % Pow2(k)
  {
    Pow2Splits(k);
    ModModProduct(x, Pow2(k), Pow2(32 - k));
  }

  lemma ModModProduct(x: int, p: int, c: int)
    requires p >= 1 && c >= 1
    ensures p * c >= 1 && x % (p * c) % p == x % p
  {
    MulAtLeast(p, c);
    var q, y := x / (p * c), x % (p * c);
    assert x == p * c * q + y;
    assert y == p * (y / p) + y % p;
    assert p * c * q == p * (c * q);
    assert p * (c * q + y / p) == p * (c * q) + p * (y / p);
    QuotientIs(x, p, c * q + y / p, y % p);
  }

  lemma Pow2Splits(k: nat)
    requires k <= 32
    ensures Pow2(k) * Pow2(32 - k) == WORD
  {
    Pow2Add(k, 32 - k);
    Pow2Of32();
  }

  lemma StepMod(x: int, y: int, k: nat)
    requires x % Pow2(k) == y % Pow2(k)
    ensures (5 * x + 1) % Pow2(k) == (5 * y + 1) % Pow2(k)
  {
    var p := Pow2(k);
    ModEqual(x, y, p);
    var q := (x - y) / p;
    assert x - y == p * q;
    assert 5 * x + 1 == p * (5 * q + (5 * y + 1) / p) + (5 * y + 1) % p by {
      assert 5 * y + 1 == p * ((5 * y + 1) / p) + (5 * y + 1) % p;
    }
    QuotientIs(5 * x + 1, p, 5 * q + (5 * y + 1) / p, (5 * y + 1) % p);
  }

  // From step 7 on the probe sequence follows the orbit.
  lemma {:induction false} ProbeIsOrbit(hash: int, k: nat, j: nat)
    requires k <= 32
    ensures Probe(hash, Pow2(k), 7 + j) == Orbit(j, Index(hash, Pow2(k), 7)) % Pow2(k)
  {
    if j > 0 {
      var x := Index(hash, Pow2(k), 7 + j - 1);
      ProbeIsOrbit(hash, k, j - 1);
      PerturbVanishes(hash, 7 + j - 1);
      assert Index(hash, Pow2(k), 7 + j) == (5 * x + 1) % WORD;
      ModMod(5 * x + 1, k);
      StepMod(x, Orbit(j - 1, Index(hash, Pow2(k), 7)), k);
    }
  }

  // Any slot of a table of 2^k slots is examined within 2^k + 7 steps.
  lemma ProbeCovers(hash: int, k: nat, t: int) returns (n: nat)
    requires k <= 32 && 0 <= t < Pow2(k)
    ensures n < Pow2(k) + 7 && Probe(hash, Pow2(k), n) == t
  {
    var j := OrbitCovers(Index(hash, Pow2(k), 7), k, t);
    ProbeIsOrbit(hash, k, j);
    n := 7 + j;
  }
}
