// The self-check that the author of the allocator wrote, do_check_malloc_state, as a
// method proved to return true in every state of the allocator.
module HeapCheck {
  import opened HeapRings
  import opened HeapLayout
  import opened BinIndex
  import opened HeapInvariant
  import opened HeapSteps
  import opened HeapTheorems
  import opened Malloc
  import opened Words

  function FastbinIndex(sz: int): int {
    sz / 8 - 2
  }

  // The arena and the lists as the checking routines need them.
  ghost predicate Checkable(h: Heap)
    reads h
  {
    h.GoodBounds() && h.heapStart <= h.brk && h.Ready()
  }

  lemma BoundsFacts(h: Heap)
    requires Checkable(h)
    ensures h.heapStart <= h.base && |h.lists| == NBINS && |h.fast| == |h.fastbins| == NFASTBINS && |h.binmap| == 4
    ensures forall j | 8 <= j < NFASTBINS :: h.fast[j] == []
    ensures forall j | 0 <= j < NFASTBINS :: h.fast[j] != [] ==> h.fastChunks
    ensures h.top != 0 && h.top != Hdr(h.av, 1)
  {
    hide TagsOk, TopOk, RingsOk, SortOk, FastOk, Settled;
    assert h.av + 768 <= h.base <= h.top;
  }

  lemma UsedPasses(h: Heap, p: int)
    requires Checkable(h) && p in h.C && !h.C[p].kind.Free?
    ensures CheckInuseChunk(h.mem, h.heapStart, h.top, p) && ChunkSize(Rd(h.mem, p + SIZE)) == h.C[p].size
  {
    hide PlaceOk, TagsOk, TopOk, RingsOk, MembersOk, SortOk, MapOk, ChainsOk, FastOk, Settled, CheckInuseChunk;
    InuseChunksPass(h.av, h.base, h.top, h.brk, h.C, h.mem, h.lists, h.heapStart, p);
    HeadReads(h.av, h.base, h.top, h.brk, h.C, h.mem, {}, p);
  }

  lemma FreePasses(h: Heap, p: int)
    requires Checkable(h) && p in h.C && h.C[p].kind.Free?
    ensures CheckFreeChunk(h.mem, h.heapStart, h.top, p) && ChunkSize(Rd(h.mem, p + SIZE)) == h.C[p].size
    ensures Next(h.C, p) == h.top || Next(h.C, p) in h.C
  {
    hide PlaceOk, TagsOk, TopOk, RingsOk, MembersOk, SortOk, MapOk, ChainsOk, FastOk, Settled, CheckFreeChunk;
    BinnedPass(h.av, h.base, h.top, h.brk, h.C, h.mem, h.lists, h.heapStart, p);
    HeadReads(h.av, h.base, h.top, h.brk, h.C, h.mem, {}, p);
  }

  lemma TopPasses(h: Heap)
    requires Checkable(h)
    ensures CheckChunk(h.mem, h.heapStart, h.top, h.top)
  {
    hide PlaceOk, TagsOk, TopOk, RingsOk, MembersOk, SortOk, MapOk, ChainsOk, FastOk, Settled;
    TopReads(h.av, h.base, h.top, h.brk, h.C, h.mem);
  }

  // The first chunk of a fastbin, what remains of its chain, and the check of its size.
  lemma ChainStep(h: Heap, i: int, p: int, L: seq<int>)
    requires Checkable(h) && 0 <= i < NFASTBINS && Chain(h.mem, p, L) && p != 0
    requires forall x | x in L :: FastMember(h.C, i, x)
    ensures L != [] && p == L[0] && Chain(h.mem, Rd(h.mem, p + FD), L[1..])
    ensures forall x | x in L[1..] :: FastMember(h.C, i, x)
    ensures p in h.C && !h.C[p].kind.Free? && FastbinIndex(h.C[p].size) == i && h.C[p].size > 0
  {
    hide PlaceOk, TagsOk, TopOk, RingsOk, MembersOk, SortOk, MapOk, ChainsOk, Settled;
    assert L[0] in L && FastMember(h.C, i, p);
  }

  // One turn of the loop over the fastbins.
  method CheckFastbin(h: Heap, i: int) returns (ok: bool, total: int)
    requires Checkable(h) && 0 <= i < NFASTBINS
    ensures ok && total >= 0 && (total != 0 ==> h.fastChunks)
  {
    hide PlaceOk, TagsOk, TopOk, RingsOk, MembersOk, SortOk, MapOk, ChainsOk, FastOk, Settled, CheckInuseChunk;
    BoundsFacts(h);
    FastMembers(h.C, h.fast, i);
    EmptyChain(h.mem, h.fastbins, h.fast, i);
    ok, total := true, 0;
    var p := h.fastbins[i];
    if i > FastbinIndex(h.maxFast) { ok := ok && p == 0; }
    ghost var L := h.fast[i];
    while p != 0
      invariant Chain(h.mem, p, L) && forall x | x in L :: FastMember(h.C, i, x)
      invariant ok && total >= 0 && (L != [] || total != 0 ==> h.fastChunks)
      decreases |L|
    {
      ChainStep(h, i, p, L);
      UsedPasses(h, p);
      var size := ChunkSize(Rd(h.mem, p + SIZE));
      ok := ok && CheckInuseChunk(h.mem, h.heapStart, h.top, p) && FastbinIndex(size) == i;
      total := total + size;
      p := Rd(h.mem, p + FD);
      L := L[1..];
    }
  }

  // "chunk is followed by a legal chain of inuse chunks"
  method CheckFollowers(h: Heap, p: int) returns (ok: bool)
    requires Checkable(h) && p in h.C
    ensures ok
  {
    hide PlaceOk, TagsOk, TopOk, RingsOk, MembersOk, SortOk, MapOk, ChainsOk, FastOk, Settled, CheckInuseChunk, InUseAt;
    ok := true;
    HeadReads(h.av, h.base, h.top, h.brk, h.C, h.mem, {}, p);
    var q := p + ChunkSize(Rd(h.mem, p + SIZE));
    while q != h.top && InUseAt(h.mem, q) && ChunkSize(Rd(h.mem, q + SIZE)) >= MINSIZE
      invariant ok && (q in h.C || q == h.top) && q <= h.top
      decreases h.top - q
    {
      HeadReads(h.av, h.base, h.top, h.brk, h.C, h.mem, {}, q);
      NextAfter(h.av, h.base, h.top, h.brk, h.C, h.mem, q);
      UsedPasses(h, q);
      ok := ok && CheckInuseChunk(h.mem, h.heapStart, h.top, q);
      q := q + ChunkSize(Rd(h.mem, q + SIZE));
      if q != h.top { HeadReads(h.av, h.base, h.top, h.brk, h.C, h.mem, {}, q); }
    }
  }

  // What a chunk of a regular bin satisfies: it belongs there, and its predecessor along bk is
  // the header or not smaller.
  lemma BinFacts(h: Heap, i: int, k: int)
    requires Checkable(h) && 2 <= i < NBINS && |h.lists| == NBINS && 0 <= k < |h.lists[i]|
    ensures h.lists[i][k] in h.C && BinOf(h.C[h.lists[i][k]].size) == i
    ensures k > 0 ==> h.lists[i][k - 1] in h.C && h.C[h.lists[i][k - 1]].size >= h.C[h.lists[i][k]].size
  {
    hide PlaceOk, TagsOk, TopOk, RingsOk, MapOk, ChainsOk, FastOk, Settled;
    RingMember(h.C, h.lists, i, k);
    assert SortedBin(h.C, h.lists[i]);
    if k > 0 { assert NotSmaller(h.C, h.lists[i][k - 1], h.lists[i][k]); }
  }

  // The checks on one chunk of bin i.
  method CheckBinned(h: Heap, i: int, p: int, ghost k: int) returns (ok: bool)
    requires Checkable(h) && 1 <= i < NBINS && |h.lists| == NBINS && 0 <= k < |h.lists[i]| && p == h.lists[i][k]
    ensures ok
  {
    hide PlaceOk, TagsOk, TopOk, RingsOk, MembersOk, SortOk, MapOk, ChainsOk, FastOk, Settled, CheckFreeChunk, BinOf;
    RingMember(h.C, h.lists, i, k);
    NodeWalk(h.mem, h.av, h.lists, i, k);
    FreePasses(h, p);
    if k > 0 {
      RingMember(h.C, h.lists, i, k - 1);
      FreePasses(h, h.lists[i][k - 1]);
    }
    ok := CheckFreeChunk(h.mem, h.heapStart, h.top, p);
    var size := ChunkSize(Rd(h.mem, p + SIZE));
    if i >= 2 {
      BinFacts(h, i, k);
      ok := ok && BinOf(size) == i;
      if size >= MIN_LARGE_SIZE {              // FIRST_SORTED_BIN_SIZE
        var bk := Rd(h.mem, p + BK);
        ok := ok && (bk == Hdr(h.av, i) || ChunkSize(Rd(h.mem, bk + SIZE)) >= size);
      }
    }
    var followed := CheckFollowers(h, p);
    ok := ok && followed;
  }

  // One turn of the loop over the bins.
  method CheckBin(h: Heap, i: int) returns (ok: bool)
    requires Checkable(h) && 1 <= i < NBINS
    ensures ok
  {
    hide PlaceOk, TagsOk, TopOk, RingsOk, MembersOk, SortOk, ChainsOk, FastOk, Settled;
    BoundsFacts(h);
    ok := true;
    var b := Hdr(h.av, i);
    FirstAndLast(h.mem, h.av, h.lists, i);
    EmptyRing(h.mem, h.av, h.lists, i);
    if i >= 2 {
      var binbit := h.binmap[i / 32][i % 32];
      var empty := Rd(h.mem, b + BK) == b;
      if !binbit { ok := ok && empty; } else if !empty { ok := ok && binbit; }
    }
    var p := Rd(h.mem, b + BK);
    ghost var k := |h.lists[i]| - 1;
    if k >= 0 { NodeWalk(h.mem, h.av, h.lists, i, k); }
    while p != b
      invariant ok && -1 <= k < |h.lists[i]| && p == At(b, h.lists[i], k) && (p == b <==> k == -1)
      decreases k
    {
      var sound := CheckBinned(h, i, p, k);
      ok := ok && sound;
      NodeWalk(h.mem, h.av, h.lists, i, k);
      if k > 0 { NodeWalk(h.mem, h.av, h.lists, i, k - 1); }
      p := Rd(h.mem, p + BK);
      k := k - 1;
    }
  }

  // do_check_malloc_state, but for the statistics: no assertion of it can fail.
  method CheckMallocState(h: Heap) returns (ok: bool)
    requires h.Valid()
    ensures ok
  {
    hide PlaceOk, TagsOk, TopOk, RingsOk, MembersOk, SortOk, MapOk, ChainsOk, FastOk, Settled;
    if h.top == 0 || h.top == Hdr(h.av, 1) { return true; }
    ok := h.maxFast <= Request2Size(80);
    var total := 0;
    var i := 0;
    while i < NFASTBINS
      invariant 0 <= i <= NFASTBINS && ok && total >= 0 && (total != 0 ==> h.fastChunks)
    {
      var sound, bytes := CheckFastbin(h, i);
      ok, total := ok && sound, total + bytes;
      i := i + 1;
    }
    if total != 0 { ok := ok && h.fastChunks; } else if !h.fastChunks { ok := ok && total == 0; }
    i := 1;
    while i < NBINS
      invariant 1 <= i <= NBINS && ok
    {
      var sound := CheckBin(h, i);
      ok := ok && sound;
      i := i + 1;
    }
    TopPasses(h);
    ok := ok && CheckChunk(h.mem, h.heapStart, h.top, h.top);
  }

  // do_check_remalloced_chunk and do_check_malloced_chunk, for a request padded to s bytes
  predicate CheckRemallocedChunk(m: Mem, low: int, top: int, p: int, s: int) {
    var sz := ChunkSize(Rd(m, p + SIZE));
    CheckInuseChunk(m, low, top, p) && sz % 8 == 0 && sz >= MINSIZE && (p + 8) % 8 == 0 && 0 <= sz - s < MINSIZE
  }

  predicate CheckMallocedChunk(m: Mem, low: int, top: int, p: int, s: int) {
    CheckRemallocedChunk(m, low, top, p, s) && PrevInUse(Rd(m, p + SIZE))
  }

  // What mALLOc hands out passes the first check, and the second too unless it came from a fastbin.
  lemma MallocedPasses(h: Heap, C0: Chunks, x: int, nb: int)
    requires Checkable(h) && Allocated(C0, h.C, x, nb) && x in Live(h.C)
    ensures CheckRemallocedChunk(h.mem, h.heapStart, h.top, x, nb)
    ensures CheckMallocedChunk(h.mem, h.heapStart, h.top, x, nb) <==> FrontInUse(h.C, x)
  {
    hide PlaceOk, TagsOk, TopOk, RingsOk, MembersOk, SortOk, MapOk, ChainsOk, FastOk, Settled, CheckInuseChunk;
    UsedPasses(h, x);
    HeadReads(h.av, h.base, h.top, h.brk, h.C, h.mem, {}, x);
  }
}
