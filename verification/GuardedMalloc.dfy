// The defensive wrapper that the kernel calls: every zone lies between guard words.
module GuardedMalloc {
  import opened HeapRings
  import opened HeapLayout
  import opened HeapInvariant
  import opened HeapSteps
  import opened HeapBreak
  import opened HeapTheorems
  import opened Malloc
  import opened Words

  const MAGIC1 := 0xa51234ab
  const MAGIC2 := 0xdeadfedc

  // l: the words of a zone of `length` bytes and its four guard words, in 32-bit arithmetic.
  function BlockWords(length: int): int {
    (length + 3) % WORD / 4 + 4
  }

  // The block p of the allocator holds an intact zone of n bytes.
  ghost predicate Guarded(C: Chunks, m: Mem, p: int, n: int) {
    && 0 < n < WORD && n < 4 * BlockWords(n) < WORD
    && 8 < p && p - 8 in Live(C) && 4 * BlockWords(n) + SIZE <= Live(C)[p - 8] && Aligned(p)
    && Rd(m, p) == n && Rd(m, p + 4) == MAGIC1
    && Rd(m, p + 4 * (BlockWords(n) - 2)) == MAGIC2 && Rd(m, p + 4 * (BlockWords(n) - 1)) == p
  }

  // The tests of mem_free on a zone that was allocated with length n fail exactly when it is
  // given another length.
  ghost predicate TestsPass(m: Mem, p: int, length: int) {
    && Rd(m, p + 4) == MAGIC1 && Rd(m, p) == length
    && Rd(m, p + 4 * (BlockWords(length) - 2)) == MAGIC2 && Rd(m, p + 4 * (BlockWords(length) - 1)) == p
  }

  lemma LengthIsChecked(C: Chunks, m: Mem, p: int, n: int, length: int)
    requires Guarded(C, m, p, n)
    ensures TestsPass(m, p, length) <==> length == n
  {}

  // Calls of the allocator for other blocks leave a zone intact.
  lemma GuardsSurvive(C: Chunks, C': Chunks, m: Mem, m': Mem, p: int, n: int)
    requires Guarded(C, m, p, n) && p - 8 in Live(C') && Live(C')[p - 8] == Live(C)[p - 8]
    requires Untouched(C, m, m') || Untouched(C', m, m')
    ensures Guarded(C', m', p, n)
  {
    var l := BlockWords(n);
    assert l >= 4;
    forall k | k in {0, 1, l - 2, l - 1} ensures Rd(m', p + 4 * k) == Rd(m, p + 4 * k) {
      assert p - 8 + 8 <= p + 4 * k < p - 8 + Live(C)[p - 8] + SIZE;
    }
    assert 0 in {0, 1, l - 2, l - 1} && 1 in {0, 1, l - 2, l - 1};
    assert l - 2 in {0, 1, l - 2, l - 1} && l - 1 in {0, 1, l - 2, l - 1};
  }

  // The memory after words lo..hi-1 of block p have been cleared by memset.
  function Zeroed(m: Mem, p: int, lo: int, hi: int): Mem
    decreases hi - lo
  {
    if lo >= hi then m else Zeroed(m, p, lo, hi - 1)[p + 4 * (hi - 1) := 0]
  }

  lemma {:induction false} ZeroedReads(m: Mem, p: int, lo: int, hi: int, k: int)
    ensures Rd(Zeroed(m, p, lo, hi), p + 4 * k) == if lo <= k < hi then 0 else Rd(m, p + 4 * k)
    decreases hi - lo
  {
    if lo < hi { ZeroedReads(m, p, lo, hi - 1, k); }
  }

  method Clear(h: Heap, p: int, lo: int, hi: int)
    requires h.Valid() && p - 8 in Live(h.C) && Aligned(p) && 0 <= lo <= hi && 4 * hi + SIZE <= Live(h.C)[p - 8]
    modifies h`mem
    ensures h.Valid() && h.mem == Zeroed(old(h.mem), p, lo, hi)
    ensures OthersUntouched(h.C, p - 8, old(h.mem), h.mem)
  {
    hide Heap.Valid, Live, OthersUntouched, Aligned;
    var k := lo;
    NothingWritten(h.C, p - 8, h.mem);
    while k < hi
      invariant lo <= k <= hi && h.Valid() && h.mem == Zeroed(old(h.mem), p, lo, k)
      invariant OthersUntouched(h.C, p - 8, old(h.mem), h.mem)
    {
      ghost var m1 := h.mem;
      WordAligned(p, k);
      h.Write(p - 8, p + 4 * k, 0);
      OthersTwice(h.C, p - 8, old(h.mem), m1, h.mem);
      k := k + 1;
    }
  }

  lemma NothingWritten(C: Chunks, x: int, m: Mem)
    ensures OthersUntouched(C, x, m, m)
  {}

  lemma WordAligned(p: int, k: int)
    requires Aligned(p)
    ensures (p + 4 * k) % 4 == 0
  {}

  // The words between the guards hold `length` bytes, and less than a word more.
  lemma ZoneHolds(length: int)
    requires 0 < length < 4 * BlockWords(length) && length < WORD
    ensures length <= 4 * (BlockWords(length) - 4) < length + 4
  {}

  // mem_alloc: a zeroed zone of `length` bytes, or 0.
  method MemAlloc(h: Heap, length: int) returns (zone: int)
    requires h.Valid() && 0 <= length < WORD
    modifies h
    ensures h.Valid()
    ensures zone == 0 ==> Live(h.C) == Live(old(h.C))
    ensures zone == 0 ==> length == 0 || 4 * BlockWords(length) % WORD <= length
                          || OutOfRange(4 * BlockWords(length)) || h.Exhausted(Request2Size(4 * BlockWords(length)), old(h.brk))
    ensures zone != 0 ==> Guarded(h.C, h.mem, zone - 8, length)
    ensures zone != 0 ==> zone - 16 !in Live(old(h.C)) && Live(h.C) == Live(old(h.C))[zone - 16 := Live(h.C)[zone - 16]]
    ensures zone != 0 ==> length <= 4 * (BlockWords(length) - 4) < length + 4
    ensures zone != 0 ==> forall k | 0 <= k < BlockWords(length) - 4 :: Rd(h.mem, zone + 4 * k) == 0
    ensures Untouched(old(h.C), old(h.mem), h.mem)
  {
    hide Heap.Explained, Heap.Pinned, Heap.Remembered, Heap.LastReady, Heap.Steady, Heap.HitsFast, UseAll, FrontInUse;
    hide Heap.Valid, Live, Untouched, OthersUntouched, Heap.Exhausted, Allocated, Zeroed, WithGuards;
    var l := BlockWords(length);
    var l2 := 4 * l % WORD;
    zone := 0;
    UntouchedSame(h.C, h.mem);
    if length == 0 || l2 <= length { return; }
    ghost var C0, m0 := h.C, h.mem;
    var p, how, seen := h.MAlloc(l2);
    if p == 0 { return; }
    NewBlock(C0, h.C, p - 8, l2);
    ghost var m1 := h.mem;
    SetGuards(h, p, l, length);
    ghost var m2 := h.mem;
    Clear(h, p, 2, l - 2);
    zone := p + 8;
    OthersTwice(h.C, p - 8, m1, m2, h.mem);
    OthersAreOld(C0, h.C, p - 8, m0, m1, h.mem);
    ZoneReady(m1, p, l, length);
    ZoneHolds(length);
  }

  // The guard words survive the clearing of the zone between them.
  lemma ZoneReady(m: Mem, p: int, l: int, length: int)
    requires l >= 4
    ensures var m' := Zeroed(WithGuards(m, p, l, length), p, 2, l - 2);
            && Rd(m', p) == length && Rd(m', p + 4) == MAGIC1 && Rd(m', p + 4 * (l - 2)) == MAGIC2 && Rd(m', p + 4 * (l - 1)) == p
            && forall k :: 0 <= k < l - 4 ==> Rd(m', p + 8 + 4 * k) == 0
  {
    var m2 := WithGuards(m, p, l, length);
    GuardsSet(m, p, l, length);
    hide Zeroed, WithGuards;
    forall k | 0 <= k < l - 4 ensures Rd(Zeroed(m2, p, 2, l - 2), p + 8 + 4 * k) == 0 {
      ZeroedReads(m2, p, 2, l - 2, k + 2);
    }
    ZeroedReads(m2, p, 2, l - 2, 0);
    ZeroedReads(m2, p, 2, l - 2, 1);
    ZeroedReads(m2, p, 2, l - 2, l - 2);
    ZeroedReads(m2, p, 2, l - 2, l - 1);
  }

  function WithGuards(m: Mem, p: int, l: int, length: int): Mem {
    m[p := length][p + 4 := MAGIC1][p + 4 * (l - 2) := MAGIC2][p + 4 * (l - 1) := p]
  }

  lemma GuardsSet(m: Mem, p: int, l: int, length: int)
    requires l >= 4
    ensures
      var m' := WithGuards(m, p, l, length);
      Rd(m', p) == length && Rd(m', p + 4) == MAGIC1 && Rd(m', p + 4 * (l - 2)) == MAGIC2 && Rd(m', p + 4 * (l - 1)) == p
  {}

  // The four stores of mem_alloc around a zone of l words.
  method SetGuards(h: Heap, p: int, l: int, length: int)
    requires h.Valid() && p - 8 in Live(h.C) && Aligned(p) && 4 <= l && 4 * l + SIZE <= Live(h.C)[p - 8]
    modifies h`mem
    ensures h.Valid() && h.mem == WithGuards(old(h.mem), p, l, length)
    ensures OthersUntouched(h.C, p - 8, old(h.mem), h.mem)
  {
    hide Heap.Valid, Live, OthersUntouched, Aligned;
    ghost var m0 := h.mem;
    Store(h, p, l, 0, length);
    ghost var m1 := h.mem;
    Store(h, p, l, 1, MAGIC1);
    OthersTwice(h.C, p - 8, m0, m1, h.mem);
    ghost var m2 := h.mem;
    Store(h, p, l, l - 2, MAGIC2);
    OthersTwice(h.C, p - 8, m0, m2, h.mem);
    ghost var m3 := h.mem;
    Store(h, p, l, l - 1, p);
    OthersTwice(h.C, p - 8, m0, m3, h.mem);
  }

  // p[k] = v in a block of l words
  method Store(h: Heap, p: int, l: int, k: int, v: int)
    requires h.Valid() && p - 8 in Live(h.C) && Aligned(p) && 0 <= k < l && 4 * l + SIZE <= Live(h.C)[p - 8]
    modifies h`mem
    ensures h.Valid() && h.mem == old(h.mem)[p + 4 * k := v]
    ensures OthersUntouched(h.C, p - 8, old(h.mem), h.mem)
  {
    hide Heap.Valid, Live, OthersUntouched, Aligned;
    WordAligned(p, k);
    h.Write(p - 8, p + 4 * k, v);
  }

  lemma NewBlock(C0: Chunks, C: Chunks, x: int, l2: int)
    requires Allocated(C0, C, x, Request2Size(l2)) && 0 <= l2 && !OutOfRange(l2)
    ensures x in Live(C) && l2 + SIZE <= Live(C)[x] && x !in Live(C0) && Aligned(x) && 0 < x
    ensures Live(C) == Live(C0)[x := Live(C)[x]]
  {
    RequestFits(l2);
  }

  // mem_free: reports a bug, and frees nothing, exactly when the length is not the one that the
  // zone was allocated with; otherwise the zone is wiped and given back.
  method MemFree(h: Heap, zone: int, length: int, ghost n: int) returns (bug: bool)
    requires h.Valid() && 0 <= length < WORD && Guarded(h.C, h.mem, zone - 8, n)
    modifies h
    ensures h.Valid() && (bug <==> length != n && length != 0)
    ensures length != n ==> Live(h.C) == Live(old(h.C)) && h.mem == old(h.mem)
    ensures length == n ==> Live(h.C) == Live(old(h.C)) - {zone - 16} && Untouched(h.C, old(h.mem), h.mem)
  {
    hide Heap.Valid, Live, Untouched, OthersUntouched;
    if length == 0 { return false; }
    var p := zone - 8;
    LengthIsChecked(h.C, h.mem, p, n, length);
    var l := BlockWords(length);
    if Rd(h.mem, p + 4) != MAGIC1 || Rd(h.mem, p) != length
       || Rd(h.mem, p + 4 * (l - 2)) != MAGIC2 || Rd(h.mem, p + 4 * (l - 1)) != p {
      return true;
    }
    ghost var C0, m0 := h.C, h.mem;
    Clear(h, p, 0, l);
    ghost var m1 := h.mem;
    h.MFree(p);
    OthersRemain(C0, h.C, p - 8, m0, m1, h.mem);
    bug := false;
  }
}
