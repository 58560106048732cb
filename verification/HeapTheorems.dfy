// What the invariant of the allocator means for its clients, in terms of the words in memory.
module HeapTheorems {
  import opened HeapRings
  import opened HeapLayout
  import opened BinIndex
  import opened HeapInvariant
  import opened HeapSteps

  // The chunks met when size words are followed from p up to top.
  function Walk(m: Mem, p: int, top: int): seq<int>
    decreases top - p
  {
    if p >= top || ChunkSize(Rd(m, p + SIZE)) < MINSIZE then []
    else [p] + Walk(m, p + ChunkSize(Rd(m, p + SIZE)), top)
  }

  function SumOf(C: Chunks, W: seq<int>): int {
    if W == [] then 0 else (if W[0] in C then C[W[0]].size else 0) + SumOf(C, W[1..])
  }

  // The bytes in chunks of one state.
  datatype Class = InUse | InFastbin | InBin

  predicate Is(C: Chunks, a: int, c: Class)
    requires a in C
  {
    match c
    case InUse => C[a].kind.Used?
    case InFastbin => C[a].kind.Fast?
    case InBin => C[a].kind.Free?
  }

  function ClassBytes(C: Chunks, W: seq<int>, c: Class): int {
    if W == [] then 0
    else (if W[0] in C && Is(C, W[0], c) then C[W[0]].size else 0) + ClassBytes(C, W[1..], c)
  }

  // Following the size words from any chunk visits exactly the chunks from there on, and stops at top.
  lemma {:induction false} WalkTiles(av: int, base: int, top: int, end: int, C: Chunks, m: Mem, p: int)
    requires PlaceOk(av, base, top, end, C) && TagsOk(m, C, {}) && (p in C || p == top)
    ensures forall a :: a in Walk(m, p, top) <==> a in C && p <= a
    ensures SumOf(C, Walk(m, p, top)) == top - p
    decreases top - p
  {
    if p in C {
      HeadReads(av, base, top, end, C, m, {}, p);
      var n := Next(C, p);
      WalkTiles(av, base, top, end, C, m, n);
      assert Walk(m, p, top) == [p] + Walk(m, n, top);
      forall a ensures a in Walk(m, p, top) <==> a in C && p <= a {
        assert a in C && p < a ==> n <= a;
      }
    } else {
      NothingAbove(av, base, top, end, C);
    }
  }

  lemma NothingAbove(av: int, base: int, top: int, end: int, C: Chunks)
    requires PlaceOk(av, base, top, end, C)
    ensures forall a | a in C :: base <= a < top
    ensures top !in C
  {}

  lemma {:induction false} ClassesAddUp(C: Chunks, W: seq<int>)
    ensures SumOf(C, W) == ClassBytes(C, W, InUse) + ClassBytes(C, W, InFastbin) + ClassBytes(C, W, InBin)
  {
    if W != [] { ClassesAddUp(C, W[1..]); }
  }

  // Live blocks, fastbin chunks, binned chunks and top always add up to the whole arena.
  lemma Conservation(av: int, base: int, top: int, end: int, C: Chunks, m: Mem)
    requires PlaceOk(av, base, top, end, C) && TagsOk(m, C, {}) && TopOk(m, top, end)
    ensures
      var W := Walk(m, base, top);
      && (forall a :: a in W <==> a in C)
      && ClassBytes(C, W, InUse) + ClassBytes(C, W, InFastbin) + ClassBytes(C, W, InBin)
         + ChunkSize(Rd(m, top + SIZE)) == end - base
  {
    WalkTiles(av, base, top, end, C, m, base);
    NothingAbove(av, base, top, end, C);
    ClassesAddUp(C, Walk(m, base, top));
    TopReads(av, base, top, end, C, m);
  }

  // Blocks handed out are 8-aligned, inside the arena, and pairwise disjoint.
  lemma BlocksDisjoint(av: int, base: int, top: int, end: int, C: Chunks, a: int, b: int)
    requires PlaceOk(av, base, top, end, C) && a in Live(C) && b in Live(C) && a < b
    ensures (a + 8) % 8 == 0 && base <= a && a + Live(C)[a] <= b && b + Live(C)[b] <= top
  {
    Below(C, base, top, b);
  }

  // ---- The checking routines of the allocator, read from memory

  // do_check_chunk; `low` is the lowest address obtained from sbrk.
  predicate CheckChunk(m: Mem, low: int, top: int, p: int) {
    var sz := ChunkSize(Rd(m, p + SIZE));
    if p != top then low <= p && p + sz <= top else MINSIZE <= sz && PrevInUse(Rd(m, p + SIZE))
  }

  // Bit IS_MMAPPED of a size word.
  predicate Mapped(w: int) {
    w % 4 >= 2
  }

  // The flag behind chunk p.
  predicate InUseAt(m: Mem, p: int) {
    PrevInUse(Rd(m, p + ChunkSize(Rd(m, p + SIZE)) + SIZE))
  }

  // do_check_free_chunk
  predicate CheckFreeChunk(m: Mem, low: int, top: int, p: int) {
    var sz := ChunkSize(Rd(m, p + SIZE));
    var next := p + sz;
    var fd, bk := Rd(m, p + FD), Rd(m, p + BK);
    && CheckChunk(m, low, top, p)
    && !InUseAt(m, p) && !Mapped(Rd(m, p + SIZE))
    && MINSIZE <= sz && sz % 8 == 0 && (p + 8) % 8 == 0
    && Rd(m, next) == sz
    && PrevInUse(Rd(m, p + SIZE))
    && (next == top || InUseAt(m, next))
    && Rd(m, fd + BK) == p && Rd(m, bk + FD) == p
  }

  // do_check_inuse_chunk
  predicate CheckInuseChunk(m: Mem, low: int, top: int, p: int) {
    var next := p + ChunkSize(Rd(m, p + SIZE));
    && CheckChunk(m, low, top, p)
    && !Mapped(Rd(m, p + SIZE)) && InUseAt(m, p)
    && (!PrevInUse(Rd(m, p + SIZE)) ==>
          var prv := p - Rd(m, p);
          prv + ChunkSize(Rd(m, prv + SIZE)) == p && CheckFreeChunk(m, low, top, prv))
    && (next == top ==> PrevInUse(Rd(m, next + SIZE)) && ChunkSize(Rd(m, next + SIZE)) >= MINSIZE)
    && (next != top && !InUseAt(m, next) ==> CheckFreeChunk(m, low, top, next))
  }

  lemma FreeLinks(C: Chunks, m: Mem, av: int, lists: seq<seq<int>>, i: int, k: int)
    requires RingsOk(m, av, lists) && 1 <= i < NBINS && 0 <= k < |lists[i]|
    ensures var p := lists[i][k]; Rd(m, Rd(m, p + FD) + BK) == p && Rd(m, Rd(m, p + BK) + FD) == p
  {
    assert RingAt(m, av, i, lists[i]);
    assert LinkOk(m, Hdr(av, i), lists[i], k) && LinkOk(m, Hdr(av, i), lists[i], k - 1);
  }

  lemma ChunkPasses(av: int, base: int, top: int, end: int, C: Chunks, m: Mem, low: int, p: int)
    requires PlaceOk(av, base, top, end, C) && TagsOk(m, C, {}) && low <= base && p in C
    ensures CheckChunk(m, low, top, p) && !Mapped(Rd(m, p + SIZE)) && p != top
    ensures ChunkSize(Rd(m, p + SIZE)) == C[p].size
  {
    HeadReads(av, base, top, end, C, m, {}, p);
    assert HeadOk(m, C, p);
    hide TagsOk;
  }

  // Every chunk in a bin passes the checks for free chunks.
  lemma FreeChunksPass(av: int, base: int, top: int, end: int, C: Chunks, m: Mem, lists: seq<seq<int>>, low: int, i: int, k: int)
    requires PlaceOk(av, base, top, end, C) && TagsOk(m, C, {}) && TopOk(m, top, end) && Settled(C) && low <= base
    requires RingsOk(m, av, lists) && MembersOk(C, lists) && 1 <= i < NBINS && 0 <= k < |lists[i]|
    ensures CheckFreeChunk(m, low, top, lists[i][k])
  {
    var p := lists[i][k];
    hide PlaceOk, TagsOk, TopOk, RingsOk, MembersOk, Settled;
    RingMember(C, lists, i, k);
    ChunkPasses(av, base, top, end, C, m, low, p);
    HeadReads(av, base, top, end, C, m, {}, p);
    BinnedNeighbours(av, base, top, end, C, p);
    var n := Next(C, p);
    HeadReads(av, base, top, end, C, m, {}, n);
    NextInUse(av, base, top, end, C, m, {}, n);
    NextInUse(av, base, top, end, C, m, {}, p);
    NoFreeFoot(C, top, m, {}, p);
    FreeLinks(C, m, av, lists, i, k);
  }

  lemma BinnedPass(av: int, base: int, top: int, end: int, C: Chunks, m: Mem, lists: seq<seq<int>>, low: int, p: int)
    requires PlaceOk(av, base, top, end, C) && TagsOk(m, C, {}) && TopOk(m, top, end) && Settled(C) && low <= base
    requires RingsOk(m, av, lists) && MembersOk(C, lists) && p in C && C[p].kind.Free?
    ensures CheckFreeChunk(m, low, top, p)
  {
    hide PlaceOk, TagsOk, TopOk, RingsOk, MembersOk, CheckFreeChunk;
    var i, k := BinPosition(C, lists, p);
    FreeChunksPass(av, base, top, end, C, m, lists, low, i, k);
  }

  // Every chunk in use, live or in a fastbin, passes the checks for chunks in use.
  lemma InuseChunksPass(av: int, base: int, top: int, end: int, C: Chunks, m: Mem, lists: seq<seq<int>>, low: int, p: int)
    requires PlaceOk(av, base, top, end, C) && TagsOk(m, C, {}) && TopOk(m, top, end) && Settled(C) && low <= base
    requires RingsOk(m, av, lists) && MembersOk(C, lists) && p in C && !C[p].kind.Free?
    ensures CheckInuseChunk(m, low, top, p)
  {
    hide PlaceOk, TagsOk, TopOk, RingsOk, MembersOk, Settled, CheckFreeChunk, CheckChunk;
    ChunkPasses(av, base, top, end, C, m, low, p);
    HeadReads(av, base, top, end, C, m, {}, p);
    NextInUse(av, base, top, end, C, m, {}, p);
    if !C[p].prevInUse {
      var q := PrevBinned(av, base, top, end, C, m, p);
      BinnedPass(av, base, top, end, C, m, lists, low, q);
      HeadReads(av, base, top, end, C, m, {}, q);
    }
    var next := Next(C, p);
    TopReads(av, base, top, end, C, m);
    if next != top {
      HeadReads(av, base, top, end, C, m, {}, next);
      NextAfter(av, base, top, end, C, m, next);
      if C[next].kind.Free? { BinnedPass(av, base, top, end, C, m, lists, low, next); }
    }
  }

  lemma NextAfter(av: int, base: int, top: int, end: int, C: Chunks, m: Mem, p: int)
    requires PlaceOk(av, base, top, end, C) && TagsOk(m, C, {}) && TopOk(m, top, end) && Settled(C) && p in C
    ensures InUseAt(m, p) == !C[p].kind.Free?
  {
    HeadReads(av, base, top, end, C, m, {}, p);
    NextInUse(av, base, top, end, C, m, {}, p);
  }

  // Every word of the live blocks other than x keeps its value.
  ghost predicate OthersUntouched(C: Chunks, x: int, m: Mem, m': Mem) {
    forall b, u | b in Live(C) && b != x && b + 8 <= u < b + Live(C)[b] + SIZE :: Rd(m', u) == Rd(m, u)
  }

  lemma OthersTwice(C: Chunks, x: int, m: Mem, m1: Mem, m2: Mem)
    requires OthersUntouched(C, x, m, m1) && OthersUntouched(C, x, m1, m2)
    ensures OthersUntouched(C, x, m, m2)
  {}

  // x is a new block.
  lemma OthersAreOld(C0: Chunks, C: Chunks, x: int, m: Mem, m1: Mem, m2: Mem)
    requires Untouched(C0, m, m1) && OthersUntouched(C, x, m1, m2)
    requires x !in Live(C0) && x in Live(C) && Live(C) == Live(C0)[x := Live(C)[x]]
    ensures Untouched(C0, m, m2)
  {
    forall a, w | a in C0 && C0[a].kind.Used? && a + 8 <= w < a + C0[a].size + SIZE
      ensures Rd(m2, w) == Rd(m, w)
    {
      assert a in Live(C0) && a in Live(C);
    }
  }

  // x is released.
  lemma OthersRemain(C: Chunks, C': Chunks, x: int, m: Mem, m1: Mem, m2: Mem)
    requires OthersUntouched(C, x, m, m1) && Untouched(C', m1, m2) && Live(C') == Live(C) - {x}
    ensures Untouched(C', m, m2)
  {
    forall a, w | a in C' && C'[a].kind.Used? && a + 8 <= w < a + C'[a].size + SIZE
      ensures Rd(m2, w) == Rd(m, w)
    {
      assert a in Live(C') && a in Live(C);
    }
  }

  // A client that writes inside its own block disturbs nothing that the allocator relies on.
  lemma ClientWrite(av: int, base: int, top: int, end: int, C: Chunks, m: Mem, lists: seq<seq<int>>,
                    fastbins: seq<int>, fast: seq<seq<int>>, x: int, w: int, v: int)
    requires PlaceOk(av, base, top, end, C) && TagsOk(m, C, {}) && TopOk(m, top, end)
    requires RingsOk(m, av, lists) && MembersOk(C, lists) && ChainsOk(m, fastbins, fast) && FastOk(C, fast)
    requires x in Live(C) && x + 8 <= w < x + Live(C)[x] + SIZE && w % 4 == 0
    ensures TagsOk(m[w := v], C, {}) && TopOk(m[w := v], top, end)
    ensures RingsOk(m[w := v], av, lists) && ChainsOk(m[w := v], fastbins, fast)
    ensures OthersUntouched(C, x, m, m[w := v])
  {
    hide Shape, RingsOk, MembersOk, ChainsOk, FastOk, TagsOk;
    PayloadNeutral(av, base, top, end, C, x, w);
    PayloadTags(av, base, top, end, C, m, x, w, v);
    PayloadRings(av, base, top, end, C, m, lists, x, w, v);
    PayloadChains(av, base, top, end, C, m, fastbins, fast, x, w, v);
  }

  // A word of a live block is no tag of another chunk, no list link, and no word of another block.
  lemma PayloadNeutral(av: int, base: int, top: int, end: int, C: Chunks, x: int, w: int)
    requires PlaceOk(av, base, top, end, C)
    requires x in C && C[x].kind.Used? && x + 8 <= w < x + C[x].size + SIZE
    ensures w != top + SIZE
    ensures forall b | b in Live(C) && b != x :: w < b + 8 || b + Live(C)[b] + SIZE <= w
  {
    Below(C, base, top, x);
  }

  lemma PayloadApart(av: int, base: int, top: int, end: int, C: Chunks, x: int, w: int, a: int)
    requires PlaceOk(av, base, top, end, C) && x in C && C[x].kind.Used? && x + 8 <= w < x + C[x].size + SIZE
    requires a in C
    ensures w != a + SIZE && (C[a].kind.Free? ==> w != Next(C, a)) && (a != x ==> w != a + FD && w != a + BK)
  {
    assert Next(C, a) == top || Next(C, a) in C;
    Below(C, base, top, x);
    Below(C, base, top, a);
  }

  lemma PayloadTags(av: int, base: int, top: int, end: int, C: Chunks, m: Mem, x: int, w: int, v: int)
    requires PlaceOk(av, base, top, end, C) && TagsOk(m, C, {}) && TopOk(m, top, end)
    requires x in C && C[x].kind.Used? && x + 8 <= w < x + C[x].size + SIZE
    ensures TagsOk(m[w := v], C, {}) && TopOk(m[w := v], top, end)
  {
    PayloadNeutral(av, base, top, end, C, x, w);
    hide PlaceOk;
    forall a | a in C ensures HeadOk(m[w := v], C, a) {
      PayloadApart(av, base, top, end, C, x, w, a);
      assert HeadOk(m, C, a);
    }
    forall a | a in C && C[a].kind.Binned() ensures FootOk(m[w := v], C, a) {
      PayloadApart(av, base, top, end, C, x, w, a);
      assert FootOk(m, C, a);
    }
  }

  lemma PayloadRings(av: int, base: int, top: int, end: int, C: Chunks, m: Mem, lists: seq<seq<int>>, x: int, w: int, v: int)
    requires PlaceOk(av, base, top, end, C) && RingsOk(m, av, lists) && MembersOk(C, lists)
    requires x in C && C[x].kind.Used? && x + 8 <= w < x + C[x].size + SIZE
    ensures RingsOk(m[w := v], av, lists)
  {
    assert av + 768 <= base <= x;
    hide PlaceOk;
    forall j | 1 <= j < NBINS ensures RingAt(m[w := v], av, j, lists[j]) {
      var h, L := Hdr(av, j), lists[j];
      assert RingAt(m, av, j, L);
      forall k | -1 <= k < |L| ensures At(h, L, k) + FD !in {w} && At(h, L, k) + BK !in {w} {
        if k >= 0 {
          RingMember(C, lists, j, k);
          PayloadApart(av, base, top, end, C, x, w, L[k]);
        }
      }
      RingFrame(av, m, m[w := v], h, L, {w});
    }
  }

  lemma PayloadChains(av: int, base: int, top: int, end: int, C: Chunks, m: Mem,
                      fastbins: seq<int>, fast: seq<seq<int>>, x: int, w: int, v: int)
    requires PlaceOk(av, base, top, end, C) && ChainsOk(m, fastbins, fast) && FastOk(C, fast)
    requires x in C && C[x].kind.Used? && x + 8 <= w < x + C[x].size + SIZE
    ensures ChainsOk(m[w := v], fastbins, fast)
  {
    hide PlaceOk;
    forall j | 0 <= j < NFASTBINS ensures Chain(m[w := v], fastbins[j], fast[j]) {
      forall y | y in fast[j] ensures Rd(m[w := v], y + FD) == Rd(m, y + FD) {
        assert FastMember(C, j, y);
        PayloadApart(av, base, top, end, C, x, w, y);
      }
      ChainFrame(m, m[w := v], fastbins[j], fast[j]);
    }
  }
}
