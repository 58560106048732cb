// The generic open-addressing hash table: linear congruential probing perturbed by the
// high hash bits, tombstones for deleted entries, doubling and halving of the slot array.
module HashTable {

  import opened HashProbe
  import opened Words

  const MIN_SIZE := 8

  // The byte size 16 * size of a slot array is an unsigned 32-bit word and the allocator
  // refuses a request of 0 bytes, so no array of 2^28 slots can be obtained.
  const MAX_LOG := 27

  datatype Slot<K, V> = Empty | Deleted | Active(key: K, value: V, hash: int)

  // What the table asks of its two callbacks: keys that compare equal have equal hashes.
  ghost predicate Consistent<K(!new)>(hf: K -> int, cmp: (K, K) -> bool) {
    && (forall a :: cmp(a, a))
    && (forall a, b :: cmp(a, b) ==> cmp(b, a) && hf(a) == hf(b))
    && (forall a, b, c :: cmp(a, b) && cmp(b, c) ==> cmp(a, c))
  }

  // ---- The finite map a slot array stands for

  ghost predicate Hit<K, V>(t: seq<Slot<K, V>>, cmp: (K, K) -> bool, i: int, key: K) {
    0 <= i < |t| && t[i].Active? && cmp(t[i].key, key)
  }

  ghost predicate Has<K, V>(t: seq<Slot<K, V>>, cmp: (K, K) -> bool, key: K) {
    exists i :: Hit(t, cmp, i, key)
  }

  ghost function Get<K, V>(t: seq<Slot<K, V>>, cmp: (K, K) -> bool, key: K): Option<V> {
    if Has(t, cmp, key) then var i :| Hit(t, cmp, i, key); Some(t[i].value) else None
  }

  // ---- Representation invariant

  // Slot i is reached by the probe sequence of `hash` before any never-used slot.
  ghost predicate Reached<K, V>(t: seq<Slot<K, V>>, hash: int, i: int, n: nat) {
    && |t| >= 1
    && Probe(hash, |t|, n) == i
    && Passed(t, hash, n)
  }

  ghost predicate Passed<K, V>(t: seq<Slot<K, V>>, hash: int, n: nat) {
    |t| >= 1 && forall m :: 0 <= m < n ==> !t[Probe(hash, |t|, m)].Empty?
  }

  ghost predicate SlotOk<K, V>(t: seq<Slot<K, V>>, hf: K -> int, i: int)
    requires 0 <= i < |t|
  {
    t[i].Active? ==> t[i].hash == hf(t[i].key) && exists n :: Reached(t, t[i].hash, i, n)
  }

  ghost predicate SlotsOk<K, V>(t: seq<Slot<K, V>>, hf: K -> int) {
    forall i :: 0 <= i < |t| ==> SlotOk(t, hf, i)
  }

  ghost predicate Unique<K, V>(t: seq<Slot<K, V>>, cmp: (K, K) -> bool) {
    forall i, j :: 0 <= i < |t| && 0 <= j < |t| && t[i].Active? && t[j].Active? && cmp(t[i].key, t[j].key) ==> i == j
  }

  function Tally<K, V>(t: seq<Slot<K, V>>, tombs: bool): (n: nat)
    ensures n <= |t|
  {
    if |t| == 0 then 0
    else Tally(t[..|t| - 1], tombs) + Counts(t[|t| - 1], tombs)
  }

  function Counts<K, V>(s: Slot<K, V>, tombs: bool): (n: nat)
  {
    if s.Active? || (tombs && s.Deleted?) then 1 else 0
  }

  ghost predicate Inv<K(!new), V>(t: seq<Slot<K, V>>, hf: K -> int, cmp: (K, K) -> bool, fill: int, count: int, log: nat) {
    && Consistent(hf, cmp)
    && 3 <= log <= MAX_LOG && |t| == Pow2(log)
    && SlotsOk(t, hf) && Unique(t, cmp)
    && fill == Tally(t, true) && count == Tally(t, false)
  }

  lemma {:induction false} TallyUpdate<K, V>(t: seq<Slot<K, V>>, i: int, s: Slot<K, V>, tombs: bool)
    requires 0 <= i < |t|
    ensures Tally(t[i := s], tombs) == Tally(t, tombs) - Counts(t[i], tombs) + Counts(s, tombs)
  {
    var u := t[i := s];
    if i == |t| - 1 {
      assert u[..|t| - 1] == t[..|t| - 1];
    } else {
      TallyUpdate(t[..|t| - 1], i, s, tombs);
      assert u[..|t| - 1] == t[..|t| - 1][i := s];
    }
  }

  lemma {:induction false} TallyOrder<K, V>(t: seq<Slot<K, V>>)
    ensures Tally(t, false) <= Tally(t, true)
  {
    if |t| > 0 { TallyOrder(t[..|t| - 1]); }
  }

  // fill counts the slots that were used at least once, so fill < size means a free slot.
  lemma {:induction false} FillFull<K, V>(t: seq<Slot<K, V>>)
    ensures Tally(t, true) == |t| <==> forall i :: 0 <= i < |t| ==> !t[i].Empty?
  {
    if |t| > 0 {
      FillFull(t[..|t| - 1]);
      assert forall i :: 0 <= i < |t| - 1 ==> t[..|t| - 1][i] == t[i];
    }
  }

  lemma GetIs<K(!new), V>(t: seq<Slot<K, V>>, hf: K -> int, cmp: (K, K) -> bool, i: int, key: K)
    requires Consistent(hf, cmp) && Unique(t, cmp) && Hit(t, cmp, i, key)
    ensures Get(t, cmp, key) == Some(t[i].value)
  {
    forall j | Hit(t, cmp, j, key) ensures j == i {
      assert cmp(key, t[i].key);
      assert cmp(t[j].key, t[i].key);
    }
  }

  // ---- What a lookup returns

  ghost predicate Stops<K, V>(t: seq<Slot<K, V>>, cmp: (K, K) -> bool, hash: int, key: K, n: nat) {
    |t| >= 1 && var i := Probe(hash, |t|, n); t[i].Empty? || Hit(t, cmp, i, key)
  }

  ghost predicate Running<K, V>(t: seq<Slot<K, V>>, cmp: (K, K) -> bool, hash: int, key: K, n: nat) {
    forall m :: 0 <= m < n ==> !Stops(t, cmp, hash, key, m)
  }

  // No tombstone before step n.
  ghost predicate NoTomb<K, V>(t: seq<Slot<K, V>>, hash: int, n: nat) {
    |t| >= 1 && forall m :: 0 <= m < n ==> !t[Probe(hash, |t|, m)].Deleted?
  }

  // r is the first tombstone on the way, found in step m.
  ghost predicate FirstTomb<K, V>(t: seq<Slot<K, V>>, hash: int, r: int, m: nat) {
    |t| >= 1 && Probe(hash, |t|, m) == r && t[r].Deleted? && NoTomb(t, hash, m)
  }

  // The walk ends in step n; its answer is the matching slot, or else the first tombstone
  // met, or else the never-used slot that ended it.
  ghost predicate Found<K, V>(t: seq<Slot<K, V>>, cmp: (K, K) -> bool, hash: int, key: K, r: int, n: nat) {
    && 0 <= r < |t|
    && Running(t, cmp, hash, key, n) && Stops(t, cmp, hash, key, n)
    && var i := Probe(hash, |t|, n);
       if t[i].Empty? && !NoTomb(t, hash, n) then exists m :: 0 <= m < n && FirstTomb(t, hash, r, m)
       else r == i
  }

  // A walk that reaches a never-used slot has passed every place where the key could be.
  lemma AbsentAtEmpty<K(!new), V>(t: seq<Slot<K, V>>, hf: K -> int, cmp: (K, K) -> bool, key: K, n: nat)
    requires Consistent(hf, cmp) && SlotsOk(t, hf) && |t| >= 1
    requires Running(t, cmp, hf(key), key, n) && t[Probe(hf(key), |t|, n)].Empty?
    ensures !Has(t, cmp, key)
  {
    forall i | Hit(t, cmp, i, key) ensures false {
      assert SlotOk(t, hf, i);
      var p :| Reached(t, t[i].hash, i, p);
      assert t[i].hash == hf(key);
      assert Stops(t, cmp, hf(key), key, p);
    }
  }

  // The walk stops exactly when the key is present or a never-used slot is left; and then
  // within size + 7 steps.
  lemma WalkStops<K(!new), V>(t: seq<Slot<K, V>>, hf: K -> int, cmp: (K, K) -> bool, fill: int, count: int, log: nat, key: K)
    requires Inv(t, hf, cmp, fill, count, log)
    ensures (exists n :: Stops(t, cmp, hf(key), key, n)) <==> fill < |t| || Has(t, cmp, key)
    ensures fill < |t| || Has(t, cmp, key) ==> exists n :: 0 <= n < |t| + 7 && Stops(t, cmp, hf(key), key, n)
  {
    FillFull(t);
    if fill < |t| || Has(t, cmp, key) {
      var i := StopSlot(t, cmp, fill, key);
      var n := ProbeCovers(hf(key), log, i);
      assert Stops(t, cmp, hf(key), key, n);
    }
    if exists n :: Stops(t, cmp, hf(key), key, n) {
      var n :| Stops(t, cmp, hf(key), key, n);
      var i := Probe(hf(key), |t|, n);
      assert t[i].Empty? || Hit(t, cmp, i, key);
    }
  }

  lemma StopSlot<K, V>(t: seq<Slot<K, V>>, cmp: (K, K) -> bool, fill: int, key: K) returns (i: int)
    requires fill == Tally(t, true)
    requires fill < |t| || Has(t, cmp, key)
    ensures 0 <= i < |t| && (t[i].Empty? || Hit(t, cmp, i, key))
  {
    FillFull(t);
    if fill < |t| {
      i :| 0 <= i < |t| && t[i].Empty?;
    } else {
      i :| Hit(t, cmp, i, key);
    }
  }

  lemma WalkEnd<K(!new), V>(t: seq<Slot<K, V>>, hf: K -> int, cmp: (K, K) -> bool, fill: int, count: int, log: nat, key: K)
    returns (n: nat)
    requires Inv(t, hf, cmp, fill, count, log)
    requires fill < |t| || Has(t, cmp, key)
    ensures |t| >= 1 && n < |t| + 7 && Stops(t, cmp, hf(key), key, n)
  {
    WalkStops(t, hf, cmp, fill, count, log, key);
    n :| n < |t| + 7 && Stops(t, cmp, hf(key), key, n);
  }

  // `freeslot` after n steps.
  ghost predicate TombSeen<K, V>(t: seq<Slot<K, V>>, hash: int, free: int, n: nat) {
    if free == -1 then NoTomb(t, hash, n) else exists m :: 0 <= m < n && FirstTomb(t, hash, free, m)
  }

  lemma WalkStart<K, V>(t: seq<Slot<K, V>>, cmp: (K, K) -> bool, hash: int, key: K)
    requires |t| >= 1
    ensures Running(t, cmp, hash, key, 0) && TombSeen(t, hash, -1, 0)
  {}

  lemma WalkOn<K, V>(t: seq<Slot<K, V>>, cmp: (K, K) -> bool, hash: int, key: K, free: int, n: nat)
    requires |t| >= 1 && Running(t, cmp, hash, key, n) && TombSeen(t, hash, free, n)
    requires var i := Probe(hash, |t|, n); !t[i].Empty? && !Hit(t, cmp, i, key)
    ensures !Stops(t, cmp, hash, key, n) && Running(t, cmp, hash, key, n + 1)
    ensures var i := Probe(hash, |t|, n);
            TombSeen(t, hash, if t[i].Deleted? && free == -1 then i else free, n + 1)
  {
    var i := Probe(hash, |t|, n);
    if free == -1 {
      if t[i].Deleted? { assert FirstTomb(t, hash, i, n); }
    } else {
      var m :| 0 <= m < n && FirstTomb(t, hash, free, m);
    }
  }

  lemma EndAtHit<K, V>(t: seq<Slot<K, V>>, cmp: (K, K) -> bool, hash: int, key: K, n: nat)
    requires |t| >= 1 && Running(t, cmp, hash, key, n) && Hit(t, cmp, Probe(hash, |t|, n), key)
    ensures Found(t, cmp, hash, key, Probe(hash, |t|, n), n) && Has(t, cmp, key)
  {}

  lemma EndAtEmpty<K(!new), V>(t: seq<Slot<K, V>>, hf: K -> int, cmp: (K, K) -> bool, fill: int, count: int, log: nat,
                               key: K, free: int, n: nat)
    requires Inv(t, hf, cmp, fill, count, log) && |t| >= 1
    requires Running(t, cmp, hf(key), key, n) && TombSeen(t, hf(key), free, n) && t[Probe(hf(key), |t|, n)].Empty?
    ensures !Has(t, cmp, key)
    ensures var r := if free == -1 then Probe(hf(key), |t|, n) else free;
            Found(t, cmp, hf(key), key, r, n) && !t[r].Active?
  {
    AbsentAtEmpty(t, hf, cmp, key, n);
    if free != -1 {
      var m :| 0 <= m < n && FirstTomb(t, hf(key), free, m);
      assert t[Probe(hf(key), |t|, m)].Deleted?;
    }
  }

  // The slot a lookup of an absent key returns can take the key.
  lemma FoundReached<K, V>(t: seq<Slot<K, V>>, cmp: (K, K) -> bool, hash: int, key: K, r: int, n: nat)
    requires Found(t, cmp, hash, key, r, n)
    ensures exists m :: Reached(t, hash, r, m)
  {
    forall m | 0 <= m < n ensures !t[Probe(hash, |t|, m)].Empty? {
      assert !Stops(t, cmp, hash, key, m);
    }
    var i := Probe(hash, |t|, n);
    if t[i].Empty? && !NoTomb(t, hash, n) {
      var m :| 0 <= m < n && FirstTomb(t, hash, r, m);
      assert Reached(t, hash, r, m);
    } else {
      assert Reached(t, hash, r, n);
    }
  }

  // ---- Steps on the slot array

  // t' maps `key` to `value` (or to nothing) and every key not equal to it as before.
  ghost predicate Updated<K(!new), V>(t: seq<Slot<K, V>>, t': seq<Slot<K, V>>, cmp: (K, K) -> bool, key: K, value: Option<V>) {
    forall k :: Get(t', cmp, k) == if cmp(key, k) then value else Get(t, cmp, k)
  }

  ghost predicate SameMap<K(!new), V>(t: seq<Slot<K, V>>, t': seq<Slot<K, V>>, cmp: (K, K) -> bool) {
    forall k :: Get(t', cmp, k) == Get(t, cmp, k)
  }

  // Replacing one slot by a used one keeps every other slot reachable.
  lemma ReachedKept<K, V>(t: seq<Slot<K, V>>, i: int, s: Slot<K, V>, hash: int, j: int, n: nat)
    requires 0 <= i < |t| && !s.Empty? && Reached(t, hash, j, n)
    ensures Reached(t[i := s], hash, j, n)
  {
    forall m | 0 <= m < n ensures !t[i := s][Probe(hash, |t|, m)].Empty? {
      assert !t[Probe(hash, |t|, m)].Empty?;
    }
  }

  lemma SlotsKept<K, V>(t: seq<Slot<K, V>>, i: int, s: Slot<K, V>, hf: K -> int)
    requires 0 <= i < |t| && !s.Empty? && SlotsOk(t, hf)
    requires s.Active? ==> s.hash == hf(s.key) && exists n :: Reached(t, s.hash, i, n)
    ensures SlotsOk(t[i := s], hf)
  {
    var u := t[i := s];
    forall j | 0 <= j < |u| ensures SlotOk(u, hf, j) {
      assert SlotOk(t, hf, j);
      if u[j].Active? {
        assert exists n :: Reached(t, u[j].hash, j, n);
        var n :| Reached(t, u[j].hash, j, n);
        ReachedKept(t, i, s, u[j].hash, j, n);
      }
    }
  }

  // Entering a key that is not there.
  lemma Enter<K(!new), V>(t: seq<Slot<K, V>>, hf: K -> int, cmp: (K, K) -> bool, fill: int, count: int, log: nat,
                          key: K, value: V, r: int, n: nat)
    requires Inv(t, hf, cmp, fill, count, log) && !Has(t, cmp, key)
    requires Found(t, cmp, hf(key), key, r, n) && !t[r].Active?
    ensures var u := t[r := Active(key, value, hf(key))];
            && Inv(u, hf, cmp, if t[r].Empty? then fill + 1 else fill, count + 1, log)
            && Updated(t, u, cmp, key, Some(value))
  {
    var s := Active(key, value, hf(key));
    var u := t[r := s];
    FoundReached(t, cmp, hf(key), key, r, n);
    SlotsKept(t, r, s, hf);
    TallyUpdate(t, r, s, true);
    TallyUpdate(t, r, s, false);
    EnterUnique(t, hf, cmp, r, s);
    forall k ensures Get(u, cmp, k) == if cmp(key, k) then Some(value) else Get(t, cmp, k) {
      if cmp(key, k) {
        GetIs(u, hf, cmp, r, k);
      } else {
        GetElsewhere(t, u, hf, cmp, r, k);
      }
    }
  }

  lemma EnterUnique<K(!new), V>(t: seq<Slot<K, V>>, hf: K -> int, cmp: (K, K) -> bool, r: int, s: Slot<K, V>)
    requires Consistent(hf, cmp) && Unique(t, cmp) && 0 <= r < |t| && s.Active? && !Has(t, cmp, s.key)
    ensures Unique(t[r := s], cmp)
  {
    var u := t[r := s];
    forall i | 0 <= i < |u| && i != r && u[i].Active? ensures !cmp(u[i].key, s.key) && !cmp(s.key, u[i].key) {
      assert !Hit(t, cmp, i, s.key);
    }
  }

  // A key that matches neither the old nor the new content of slot r is not affected.
  lemma GetElsewhere<K(!new), V>(t: seq<Slot<K, V>>, u: seq<Slot<K, V>>, hf: K -> int, cmp: (K, K) -> bool, r: int, k: K)
    requires Consistent(hf, cmp) && Unique(t, cmp) && Unique(u, cmp)
    requires 0 <= r < |t| == |u| && u == t[r := u[r]]
    requires !Hit(t, cmp, r, k) && !Hit(u, cmp, r, k)
    ensures Get(u, cmp, k) == Get(t, cmp, k)
  {
    if Has(t, cmp, k) {
      var i :| Hit(t, cmp, i, k);
      assert Hit(u, cmp, i, k);
      GetIs(t, hf, cmp, i, k);
      GetIs(u, hf, cmp, i, k);
    } else {
      forall i ensures !Hit(u, cmp, i, k) {
        assert !Hit(t, cmp, i, k);
      }
    }
  }

  // Overwriting the value of a key that is there.
  lemma Overwrite<K(!new), V>(t: seq<Slot<K, V>>, hf: K -> int, cmp: (K, K) -> bool, fill: int, count: int, log: nat,
                              key: K, value: V, r: int)
    requires Inv(t, hf, cmp, fill, count, log) && Hit(t, cmp, r, key)
    ensures var u := t[r := t[r].(value := value)];
            Inv(u, hf, cmp, fill, count, log) && Updated(t, u, cmp, key, Some(value))
  {
    var s := t[r].(value := value);
    var u := t[r := s];
    assert SlotOk(t, hf, r);
    SlotsKept(t, r, s, hf);
    TallyUpdate(t, r, s, true);
    TallyUpdate(t, r, s, false);
    assert forall i :: 0 <= i < |t| ==> u[i].Active? == t[i].Active? && (t[i].Active? ==> u[i].key == t[i].key);
    forall k ensures Get(u, cmp, k) == if cmp(key, k) then Some(value) else Get(t, cmp, k) {
      SameClass(t, hf, cmp, r, key, k);
      if cmp(key, k) {
        GetIs(u, hf, cmp, r, k);
      } else {
        GetElsewhere(t, u, hf, cmp, r, k);
      }
    }
  }

  lemma SameClass<K(!new), V>(t: seq<Slot<K, V>>, hf: K -> int, cmp: (K, K) -> bool, r: int, key: K, k: K)
    requires Consistent(hf, cmp) && Hit(t, cmp, r, key)
    ensures cmp(key, k) <==> Hit(t, cmp, r, k)
  {
    assert cmp(key, t[r].key);
  }

  lemma HitOnly<K(!new), V>(t: seq<Slot<K, V>>, hf: K -> int, cmp: (K, K) -> bool, r: int, key: K, i: int, k: K)
    requires Consistent(hf, cmp) && Unique(t, cmp) && Hit(t, cmp, r, key) && cmp(key, k)
    ensures Hit(t, cmp, i, k) ==> i == r
  {
    if Hit(t, cmp, i, k) {
      assert cmp(k, t[r].key);
      assert cmp(t[i].key, t[r].key);
    }
  }

  // Turning the slot of a key into a tombstone.
  lemma Remove<K(!new), V>(t: seq<Slot<K, V>>, hf: K -> int, cmp: (K, K) -> bool, fill: int, count: int, log: nat,
                           key: K, r: int)
    requires Inv(t, hf, cmp, fill, count, log) && Hit(t, cmp, r, key)
    ensures var u := t[r := Deleted];
            Inv(u, hf, cmp, fill, count - 1, log) && Updated(t, u, cmp, key, None)
  {
    var u := t[r := Deleted];
    SlotsKept(t, r, Deleted, hf);
    TallyUpdate(t, r, Deleted, true);
    TallyUpdate(t, r, Deleted, false);
    forall k ensures Get(u, cmp, k) == if cmp(key, k) then None else Get(t, cmp, k) {
      SameClass(t, hf, cmp, r, key, k);
      if cmp(key, k) {
        forall i ensures !Hit(u, cmp, i, k) {
          HitOnly(t, hf, cmp, r, key, i, k);
        }
      } else {
        GetElsewhere(t, u, hf, cmp, r, k);
      }
    }
  }

  // ---- A table with only never-used slots, and the prefix copied so far

  lemma {:induction false} TallyZero<K, V>(t: seq<Slot<K, V>>, tombs: bool)
    requires forall i :: 0 <= i < |t| ==> t[i].Empty?
    ensures Tally(t, tombs) == 0
  {
    if |t| > 0 { TallyZero(t[..|t| - 1], tombs); }
  }

  lemma EmptyTable<K(!new), V>(t: seq<Slot<K, V>>, hf: K -> int, cmp: (K, K) -> bool, log: nat)
    requires Consistent(hf, cmp) && 3 <= log <= MAX_LOG && |t| == Pow2(log)
    requires forall i :: 0 <= i < |t| ==> t[i].Empty?
    ensures Inv(t, hf, cmp, 0, 0, log)
    ensures forall k :: Get(t, cmp, k) == None
  {
    TallyZero(t, true);
    TallyZero(t, false);
  }

  // One more slot of the old array accounted for.
  lemma PrefixStep<K(!new), V>(was: seq<Slot<K, V>>, hf: K -> int, cmp: (K, K) -> bool, i: int)
    requires Consistent(hf, cmp) && Unique(was, cmp) && 0 <= i < |was|
    ensures !was[i].Active? ==> SameMap(was[..i], was[..i + 1], cmp)
    ensures was[i].Active? ==> !Has(was[..i], cmp, was[i].key)
    ensures was[i].Active? ==> Updated(was[..i], was[..i + 1], cmp, was[i].key, Some(was[i].value))
    ensures Tally(was[..i + 1], false) == Tally(was[..i], false) + Counts(was[i], false)
  {
    var p, q := was[..i], was[..i + 1];
    assert q[..i] == p && q[i] == was[i];
    forall j, k ensures j != i ==> Hit(q, cmp, j, k) == Hit(p, cmp, j, k) {}
    forall k ensures !Hit(q, cmp, i, k) ==> Get(q, cmp, k) == Get(p, cmp, k) {
      if !Hit(q, cmp, i, k) {
        PrefixGet(was, hf, cmp, i, k);
      }
    }
    if was[i].Active? {
      forall k | cmp(was[i].key, k) ensures Get(q, cmp, k) == Some(was[i].value) {
        GetIs(q, hf, cmp, i, k);
      }
    }
  }

  lemma PrefixGet<K(!new), V>(was: seq<Slot<K, V>>, hf: K -> int, cmp: (K, K) -> bool, i: int, k: K)
    requires Consistent(hf, cmp) && Unique(was, cmp) && 0 <= i < |was|
    requires !Hit(was[..i + 1], cmp, i, k)
    ensures Get(was[..i + 1], cmp, k) == Get(was[..i], cmp, k)
  {
    var p, q := was[..i], was[..i + 1];
    if Has(q, cmp, k) {
      var j :| Hit(q, cmp, j, k);
      assert Hit(p, cmp, j, k);
      GetIs(q, hf, cmp, j, k);
      GetIs(p, hf, cmp, j, k);
    } else {
      forall j ensures !Hit(p, cmp, j, k) {
        assert !Hit(q, cmp, j, k);
      }
    }
  }

  // Growing or shrinking leaves room.
  lemma RoomAfterResize(fill: int, count: int, size: int)
    requires size >= 8 && 0 <= count <= fill <= size
    ensures 3 * fill >= 2 * size ==> 3 * count < 2 * (2 * size)
    ensures 4 * count <= size && size % 2 == 0 ==> 3 * count < 2 * (size / 2)
  {}

  // ---- Whole runs

  datatype Op<K, V> = SetOp(key: K, value: V) | DelOp(key: K)

  function Effect<K, V>(op: Op<K, V>): Option<V> {
    if op.SetOp? then Some(op.value) else None
  }

  // The finite map after a run: for each key the last operation on an equal key decides.
  function Replay<K, V>(ops: seq<Op<K, V>>, cmp: (K, K) -> bool, k: K): Option<V> {
    if |ops| == 0 then None
    else if cmp(ops[|ops| - 1].key, k) then Effect(ops[|ops| - 1])
    else Replay(ops[..|ops| - 1], cmp, k)
  }

  ghost predicate IsRun<K(!new), V>(ts: seq<seq<Slot<K, V>>>, ops: seq<Op<K, V>>, cmp: (K, K) -> bool) {
    && |ts| == |ops| + 1
    && (forall k :: Get(ts[0], cmp, k) == None)
    && forall i :: 0 <= i < |ops| ==> Updated(ts[i], ts[i + 1], cmp, ops[i].key, Effect(ops[i]))
  }

  lemma {:induction false} RunRefinesMap<K(!new), V>(ts: seq<seq<Slot<K, V>>>, ops: seq<Op<K, V>>, cmp: (K, K) -> bool, k: K)
    requires IsRun(ts, ops, cmp)
    ensures Get(ts[|ops|], cmp, k) == Replay(ops, cmp, k)
  {
    if |ops| > 0 {
      var n := |ops| - 1;
      assert IsRun(ts[..n + 1], ops[..n], cmp) by {
        forall i | 0 <= i < n ensures Updated(ts[..n + 1][i], ts[..n + 1][i + 1], cmp, ops[..n][i].key, Effect(ops[..n][i])) {
          assert Updated(ts[i], ts[i + 1], cmp, ops[i].key, Effect(ops[i]));
        }
      }
      RunRefinesMap(ts[..n + 1], ops[..n], cmp, k);
      assert Updated(ts[n], ts[n + 1], cmp, ops[n].key, Effect(ops[n]));
    }
  }

  lemma RunGoes<K(!new), V>(ts: seq<seq<Slot<K, V>>>, ops: seq<Op<K, V>>, cmp: (K, K) -> bool, n: nat, t: seq<Slot<K, V>>)
    requires n < |ops| && IsRun(ts, ops[..n], cmp)
    requires Updated(ts[n], t, cmp, ops[n].key, Effect(ops[n]))
    ensures IsRun(ts + [t], ops[..n + 1], cmp)
  {
    var us := ts + [t];
    forall i | 0 <= i < n + 1 ensures Updated(us[i], us[i + 1], cmp, ops[..n + 1][i].key, Effect(ops[..n + 1][i])) {
      if i < n {
        assert Updated(ts[i], ts[i + 1], cmp, ops[..n][i].key, Effect(ops[..n][i]));
      }
    }
  }

  lemma LastSize<K(!new), V>(t: seq<Slot<K, V>>, hf: K -> int, cmp: (K, K) -> bool, fill: int, count: int, log: nat)
    requires Inv(t, hf, cmp, fill, count, log)
    ensures fill <= |t| && (log == MAX_LOG ==> |t| == 0x800_0000)
  {
    Pow2Of32();
  }

  // ---- The table object

  class Table<K(==, !new), V> {
    var fill: int
    var count: int
    var mask: int
    var table: array<Slot<K, V>>
    const hfunc: K -> int
    const cmp: (K, K) -> bool
    ghost var log: nat

    ghost predicate Valid()
      reads this, table
    {
      mask == table.Length - 1 && Inv(table[..], hfunc, cmp, fill, count, log)
    }

    // Room for at least a third of the slots; kept by every call that reports success.
    ghost predicate Roomy()
      reads this, table
    {
      3 * fill < 2 * table.Length
    }

    ghost function Value(key: K): Option<V>
      reads this, table
    {
      Get(table[..], cmp, key)
    }

    // A lookup of this key returns (see WalkStops).
    ghost predicate Answers(key: K)
      reads this, table
    {
      fill < table.Length || Has(table[..], cmp, key)
    }

    // hash_init, when the first allocation succeeds
    constructor (hf: K -> int, eq: (K, K) -> bool)
      requires Consistent(hf, eq)
      ensures Valid() && Roomy() && fresh(table)
      ensures hfunc == hf && cmp == eq && table.Length == MIN_SIZE && fill == count == 0
      ensures forall k :: Value(k) == None
    {
      hfunc, cmp := hf, eq;
      fill, count, mask := 0, 0, MIN_SIZE - 1;
      table := new Slot<K, V>[MIN_SIZE](_ => Empty);
      log := 3;
      new;
      assert Pow2(3) == 8;
      EmptyTable(table[..], hfunc, cmp, 3);
    }

    method Initialize(size: int, granted: bool, ghost newLog: nat) returns (ok: bool)
      requires Consistent(hfunc, cmp) && newLog >= 3 && size == Pow2(newLog)
      modifies this
      ensures ok <==> granted && newLog <= MAX_LOG
      ensures ok ==> Valid() && fresh(table) && log == newLog && fill == count == 0
      ensures ok ==> forall k :: Value(k) == None
      ensures !ok ==> unchanged(this)
    {
      SizeBound(newLog);
      if !granted || size > 0x800_0000 {
        return false;
      }
      fill, count, mask := 0, 0, size - 1;
      table := new Slot<K, V>[size](_ => Empty);
      log := newLog;
      EmptyTable(table[..], hfunc, cmp, log);
      ok := true;
    }

    method Lookup(key: K, hash: int) returns (r: int, ghost steps: nat)
      requires Valid() && hash == hfunc(key) && Answers(key)
      ensures 0 <= r < table.Length && steps < table.Length + 7
      ensures Found(table[..], cmp, hash, key, r, steps)
      ensures table[r].Active? <==> Has(table[..], cmp, key)
      ensures table[r].Active? ==> Hit(table[..], cmp, r, key)
    {
      hide Inv, Found, Running, Stops, FirstTomb, NoTomb, TombSeen, Has, Hit, Index, Perturb, Probe;
      ghost var t := table[..];
      ghost var last := WalkEnd(t, hfunc, cmp, fill, count, log, key);
      var index := hash % WORD % table.Length;
      var perturb := hash % WORD;
      var slot := index;
      var freeslot := -1;
      steps := 0;
      WalkStart(t, cmp, hash, key);
      FirstProbe(hash, table.Length);
      while true
        invariant steps <= last
        invariant index == Index(hash, |t|, steps) && perturb == Perturb(hash, steps) && slot == Probe(hash, |t|, steps)
        invariant Running(t, cmp, hash, key, steps) && TombSeen(t, hash, freeslot, steps)
        decreases last - steps
      {
        if table[slot].Empty? {
          EndAtEmpty(t, hfunc, cmp, fill, count, log, key, freeslot, steps);
          return if freeslot == -1 then slot else freeslot, steps;
        }
        MatchIsHit(t, hfunc, cmp, fill, count, log, slot, key);
        if table[slot].Active? && (table[slot].key == key || (table[slot].hash == hash && cmp(table[slot].key, key))) {
          EndAtHit(t, cmp, hash, key, steps);
          return slot, steps;
        }
        WalkOn(t, cmp, hash, key, freeslot, steps);
        if table[slot].Deleted? && freeslot == -1 {
          freeslot := slot;
        }
        NextProbe(hash, table.Length, steps);
        index := (5 * index + perturb + 1) % WORD;
        slot := index % table.Length;
        perturb := perturb / 32;
        steps := steps + 1;
      }
    }

    method Copy(oldTable: array<Slot<K, V>>)
      requires Valid() && fill == count == 0 && oldTable != table
      requires forall k :: Value(k) == None
      requires SlotsOk(oldTable[..], hfunc) && Unique(oldTable[..], cmp)
      requires Tally(oldTable[..], false) < table.Length
      modifies this`fill, this`count, table
      ensures Valid() && fill == count == Tally(oldTable[..], false)
      ensures SameMap(oldTable[..], table[..], cmp)
    {
      ghost var o := oldTable[..];
      var i := 0;
      forall k ensures Get(o[..i], cmp, k) == Get(table[..], cmp, k) {
        assert !Has(o[..i], cmp, k) && Value(k) == None;
      }
      while i < oldTable.Length
        invariant 0 <= i <= oldTable.Length && oldTable[..] == o && table == old(table)
        invariant Valid() && fill == count == Tally(o[..i], false)
        invariant SameMap(o[..i], table[..], cmp)
      {
        PrefixStep(o, hfunc, cmp, i);
        if oldTable[i].Active? {
          assert SlotOk(o, hfunc, i);
          CopySlot(oldTable[i], o, i);
        }
        i := i + 1;
      }
      assert o[..i] == o;
    }

    // One turn of the copying loop, on an active slot.
    method CopySlot(s: Slot<K, V>, ghost o: seq<Slot<K, V>>, ghost i: int)
      requires Valid() && 0 <= i < |o| && s == o[i] && s.Active? && s.hash == hfunc(s.key)
      requires fill == count == Tally(o[..i], false) && Tally(o, false) < table.Length
      requires SameMap(o[..i], table[..], cmp) && !Has(o[..i], cmp, s.key)
      requires Updated(o[..i], o[..i + 1], cmp, s.key, Some(s.value))
      requires Tally(o[..i + 1], false) == Tally(o[..i], false) + 1
      modifies this`fill, this`count, table
      ensures Valid() && fill == count == Tally(o[..i + 1], false)
      ensures SameMap(o[..i + 1], table[..], cmp)
    {
      ghost var t := table[..];
      TallyPrefix(o, i);
      var r, steps := Lookup(s.key, hfunc(s.key));
      assert Get(t, cmp, s.key) == Get(o[..i], cmp, s.key) == None;
      NoTombstones(t, r);
      Enter(t, hfunc, cmp, fill, count, log, s.key, s.value, r, steps);
      table[r] := Active(s.key, s.value, s.hash);
      fill := fill + 1;
      count := count + 1;
      assert table[..] == t[r := Active(s.key, s.value, hfunc(s.key))];
    }

    // Keeps the load below two thirds, or says why not.
    method Update(granted: bool) returns (ok: bool)
      requires Valid()
      modifies this
      ensures Valid() && SameMap(old(table[..]), table[..], cmp)
      ensures ok ==> Roomy() && 3 * fill < 2 * table.Length && (table == old(table) || fresh(table))
      ensures !ok ==> unchanged(this) && (!granted || (log == MAX_LOG && 3 * fill >= 2 * table.Length))
      ensures !granted ==> table == old(table)
      ensures table == old(table) ==> unchanged(this)
      ensures fill <= old(fill)
      ensures table == old(table) ==> table[..] == old(table[..])
      ensures ok && table != old(table) ==> fill == count == old(count)
      // doubled from two thirds on, halved from a quarter down, never below eight slots
      ensures ok ==> table.Length == if 3 * old(fill) >= 2 * old(table.Length) then 2 * old(table.Length)
                                     else if old(table.Length) > 8 && 4 * old(count) <= old(table.Length) then old(table.Length) / 2
                                     else old(table.Length)
      ensures !ok ==> 3 * old(fill) >= 2 * old(table.Length) || (old(table.Length) > 8 && 4 * old(count) <= old(table.Length))
    {
      var oldSize := mask + 1;
      var newSize := oldSize;
      ghost var newLog := log;
      TallyOrder(table[..]);
      SizeBound(log);
      SizeStep(log);
      RoomAfterResize(fill, count, oldSize);
      if 3 * fill >= 2 * oldSize {
        newSize, newLog := 2 * newSize, newLog + 1;
      } else if oldSize > MIN_SIZE && 4 * count <= oldSize {
        newSize, newLog := newSize / 2, newLog - 1;
      } else {
        return true;
      }
      var oldTable := table;
      ok := Initialize(newSize, granted, newLog);
      if ok {
        Copy(oldTable);
      }
    }

    method IsSet(key: K) returns (r: bool)
      requires Valid() && Answers(key)
      ensures r <==> Value(key) != None
    {
      var i, steps := Lookup(key, hfunc(key));
      r := table[i].Active?;
    }

    method GetOr(key: K, default_: V) returns (v: V)
      requires Valid() && Answers(key)
      ensures v == if Value(key) == None then default_ else Value(key).value
    {
      var i, steps := Lookup(key, hfunc(key));
      if table[i].Active? {
        GetIs(table[..], hfunc, cmp, i, key);
        return table[i].value;
      }
      return default_;
    }

    // The entry is made even when the call reports failure, which it does when the array
    // should have been resized and could not be.
    method Set(key: K, value: V, granted: bool) returns (ok: bool)
      requires Valid() && Answers(key)
      modifies this, table
      ensures Valid() && Updated(old(table[..]), table[..], cmp, key, Some(value))
      ensures ok && (old(Roomy()) || old(Value(key)) == None) ==> Roomy()
      ensures !ok ==> !granted || (log == MAX_LOG && 3 * fill >= 2 * table.Length)
      ensures table == old(table) || fresh(table)
      ensures fill <= old(fill) + 1
      // a refused allocation leaves the array as it is, one free slot shorter
      ensures !granted ==> table == old(table)
      ensures !granted && old(Value(key)) == None && old(fill) == old(count) ==> fill == count == old(fill) + 1
    {
      ghost var t := table[..];
      var hash := hfunc(key);
      var r, steps := Lookup(key, hash);
      if table[r].Active? {
        GetIs(t, hfunc, cmp, r, key);
        Overwrite(t, hfunc, cmp, fill, count, log, key, value, r);
        table[r] := table[r].(value := value);
        assert table[..] == t[r := t[r].(value := value)];
        return true;
      }
      SetNew(key, value, r, steps);
      ok := Update(granted);
    }

    // The entry of a key that was not there.
    method SetNew(key: K, value: V, r: int, ghost steps: nat)
      requires Valid() && !Has(table[..], cmp, key) && Found(table[..], cmp, hfunc(key), key, r, steps)
      requires 0 <= r < table.Length && !table[r].Active?
      modifies this`fill, this`count, table
      ensures Valid() && Updated(old(table[..]), table[..], cmp, key, Some(value))
      ensures count == old(count) + 1 && fill == old(fill) + if old(table[r]).Empty? then 1 else 0
      ensures old(fill) == old(count) ==> fill == count
    {
      hide Found, Updated;
      ghost var t := table[..];
      Enter(t, hfunc, cmp, fill, count, log, key, value, r, steps);
      if fill == count {
        NoTombstones(t, r);
      }
      count := count + 1;
      if table[r].Empty? {
        fill := fill + 1;
      }
      table[r] := Active(key, value, hfunc(key));
      assert table[..] == t[r := Active(key, value, hfunc(key))];
    }

    method Del(key: K, granted: bool) returns (ok: bool)
      requires Valid() && Answers(key)
      modifies this, table
      ensures Valid() && Updated(old(table[..]), table[..], cmp, key, None)
      ensures ok && (old(Roomy()) || old(Value(key)) != None) ==> Roomy()
      ensures !ok ==> !granted || (log == MAX_LOG && 3 * fill >= 2 * table.Length)
      ensures table == old(table) || fresh(table)
      ensures fill <= old(fill)
    {
      ghost var t := table[..];
      var r, steps := Lookup(key, hfunc(key));
      if !table[r].Active? {
        AbsentClass(t, hfunc, cmp, key);
        return true;
      }
      GetIs(t, hfunc, cmp, r, key);
      Remove(t, hfunc, cmp, fill, count, log, key, r);
      table[r] := Deleted;
      count := count - 1;
      assert table[..] == t[r := Deleted];
      ok := Update(granted);
    }

    // hash_init
    static method Init(hf: K -> int, eq: (K, K) -> bool, granted: bool) returns (h: Table?<K, V>)
      requires Consistent(hf, eq)
      ensures h != null <==> granted
      ensures h != null ==> h.Valid() && h.Roomy() && fresh(h) && fresh(h.table) && h.hfunc == hf && h.cmp == eq
      ensures h != null ==> forall k :: h.Value(k) == None
    {
      if !granted {
        return null;
      }
      h := new Table(hf, eq);
    }

    // A run of operations on an empty table, whatever becomes of the allocations, up to the point
    // where every slot is used.
    method Run(ops: seq<Op<K, V>>, granted: seq<bool>) returns (done: nat)
      requires Valid() && |granted| == |ops| && forall k :: Value(k) == None
      modifies this, table
      ensures Valid() && done <= |ops| && forall k :: Value(k) == Replay(ops[..done], cmp, k)
      ensures done < |ops| ==> fill == table.Length
      ensures old(Roomy()) && (forall g :: g in granted ==> g) && old(fill) + |ops| <= 0x400_0000 ==>
                done == |ops| && Roomy()
    {
      hide Inv;
      ghost var ts := [table[..]];
      done := 0;
      LastSize(table[..], hfunc, cmp, fill, count, log);
      forall k ensures Get(ts[0], cmp, k) == None {
        assert Value(k) == None;
      }
      while done < |ops| && fill < table.Length
        invariant done <= |ops| && Valid() && fill <= old(fill) + done
        invariant fill <= table.Length && (table == old(table) || fresh(table))
        invariant IsRun(ts, ops[..done], cmp) && ts[done] == table[..]
        invariant old(Roomy()) && (forall g :: g in granted ==> g) && old(fill) + |ops| <= 0x400_0000 ==> Roomy()
      {
        assert granted[done] in granted;
        var op := ops[done];
        if op.SetOp? {
          var ok := Set(op.key, op.value, granted[done]);
        } else {
          var ok := Del(op.key, granted[done]);
        }
        LastSize(table[..], hfunc, cmp, fill, count, log);
        RunGoes(ts, ops, cmp, done, table[..]);
        ts := ts + [table[..]];
        done := done + 1;
      }
      forall k ensures Value(k) == Replay(ops[..done], cmp, k) {
        RunRefinesMap(ts, ops[..done], cmp, k);
      }
    }

    // Enough new keys, set while the allocator refuses a larger array, use every slot, and then
    // the lookup of any other key walks for ever.
    method Crowd(keys: seq<K>, value: V)
      requires Valid() && fill == count && |keys| == table.Length - fill
      requires forall i :: 0 <= i < |keys| ==> Value(keys[i]) == None
      requires forall i, j :: 0 <= i < j < |keys| ==> !cmp(keys[i], keys[j])
      modifies this, table
      ensures Valid() && table == old(table) && fill == table.Length
      ensures forall k :: (forall i :: 0 <= i < |keys| ==> !cmp(keys[i], k)) ==> Value(k) == old(Value(k))
      ensures forall k, n: nat :: Value(k) == None ==> !Stops(table[..], cmp, hfunc(k), k, n)
    {
      hide Inv, Stops;
      for i := 0 to |keys|
        invariant Valid() && table == old(table) && fill == count == old(fill) + i
        invariant forall j :: i <= j < |keys| ==> Value(keys[j]) == None
        invariant forall k :: (forall j :: 0 <= j < i ==> !cmp(keys[j], k)) ==> Value(k) == old(Value(k))
      {
        var ok := Set(keys[i], value, false);
      }
      forall k, n: nat | Value(k) == None ensures !Stops(table[..], cmp, hfunc(k), k, n) {
        WalkStops(table[..], hfunc, cmp, fill, count, log, k);
      }
    }
  }

  lemma HasClass<K(!new), V>(t: seq<Slot<K, V>>, hf: K -> int, cmp: (K, K) -> bool, key: K, k: K)
    requires Consistent(hf, cmp) && cmp(key, k) && Has(t, cmp, k)
    ensures Has(t, cmp, key)
  {
    var i :| Hit(t, cmp, i, k);
    assert cmp(k, key);
    assert Hit(t, cmp, i, key);
  }

  lemma AbsentClass<K(!new), V>(t: seq<Slot<K, V>>, hf: K -> int, cmp: (K, K) -> bool, key: K)
    requires Consistent(hf, cmp) && !Has(t, cmp, key)
    ensures Updated(t, t, cmp, key, None)
  {
    hide Has;
    forall k ensures cmp(key, k) ==> Get(t, cmp, k) == None {
      if cmp(key, k) && Has(t, cmp, k) {
        HasClass(t, hf, cmp, key, k);
      }
    }
  }

  // The test the loop makes, pointer first, is equality of keys.
  lemma MatchIsHit<K(!new), V>(t: seq<Slot<K, V>>, hf: K -> int, cmp: (K, K) -> bool, fill: int, count: int, log: nat,
                               i: int, key: K)
    requires Inv(t, hf, cmp, fill, count, log) && 0 <= i < |t|
    ensures t[i].Active? ==> (Hit(t, cmp, i, key) <==> t[i].key == key || (t[i].hash == hf(key) && cmp(t[i].key, key)))
    ensures !t[i].Active? ==> !Hit(t, cmp, i, key)
  {
    assert SlotOk(t, hf, i);
  }

  lemma {:induction false} TallyPrefix<K, V>(t: seq<Slot<K, V>>, i: int)
    requires 0 <= i <= |t|
    ensures Tally(t[..i], false) <= Tally(t, false)
    decreases |t|
  {
    if i < |t| {
      TallyPrefix(t[..|t| - 1], i);
      assert t[..|t| - 1][..i] == t[..i];
    } else {
      assert t[..i] == t;
    }
  }

  // As many used slots as active ones: no tombstones.
  lemma {:induction false} NoTombstones<K, V>(t: seq<Slot<K, V>>, i: int)
    requires 0 <= i < |t| && Tally(t, true) == Tally(t, false)
    ensures !t[i].Deleted?
  {
    TallyOrder(t[..|t| - 1]);
    if i < |t| - 1 { NoTombstones(t[..|t| - 1], i); }
  }

  lemma SizeBound(log: nat)
    requires log >= 3
    ensures Pow2(log) >= 8
    ensures log <= MAX_LOG <==> Pow2(log) <= 0x800_0000
  {
    assert Pow2(3) == 8;
    if log > 3 { Pow2Mono(3, log); }
    Pow2Of32();
    if log < MAX_LOG { Pow2Mono(log, MAX_LOG); } else if log > MAX_LOG { Pow2Mono(MAX_LOG, log); }
  }

  lemma SizeStep(log: nat)
    requires log >= 3
    ensures Pow2(log + 1) == 2 * Pow2(log) && Pow2(log) % 2 == 0 && Pow2(log - 1) == Pow2(log) / 2
    ensures Pow2(log) > 8 ==> log > 3
  {
    assert Pow2(3) == 8;
  }

  // The same from the start: eight entries, and the lookup of a ninth key never answers.
  method FullTable() returns (h: Table<int, int>)
    ensures h.Valid() && h.fill == h.table.Length
    ensures forall n: nat :: !Stops(h.table[..], h.cmp, h.hfunc(8), 8, n)
  {
    h := new Table((k: int) => k, (a: int, b: int) => a == b);
    h.Crowd([0, 1, 2, 3, 4, 5, 6, 7], 0);
    assert h.Value(8) == None;
  }
}
