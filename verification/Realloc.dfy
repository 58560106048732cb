// realloc and memalign: blocks that grow, shrink, move and are cut where they lie.
module Realloc {
  import opened HeapRings
  import opened HeapLayout
  import opened BinIndex
  import opened HeapInvariant
  import opened HeapSteps
  import opened HeapTheorems
  import opened Malloc
  import opened GuardedMalloc
  import opened Words

  // ---- Blocks that grow into top, are joined and are cut

  // Block x, which borders top, gets size nb.
  function Resize(C: Chunks, x: int, nb: int): Chunks
    requires x in C
  {
    C[x := C[x].(size := nb)]
  }

  // Block x keeps its first nb bytes and the rest becomes a block too.
  function Cut(C: Chunks, x: int, nb: int): Chunks
    requires x in C
  {
    C[x := C[x].(size := nb)][x + nb := Chunk(C[x].size - nb, true, Used)]
  }

  lemma ResizeTiled(C: Chunks, base: int, top: int, x: int, nb: int)
    requires Tiled(C, base, top) && x in C && Next(C, x) == top && GoodSize(nb)
    ensures Tiled(Resize(C, x, nb), base, x + nb)
  {
    hide Aligned;
    var C' := Resize(C, x, nb);
    assert Next(C', x) == x + nb;
    forall y | y in C' ensures Next(C', y) == x + nb || Next(C', y) in C' {
      assert y != x ==> Next(C', y) == Next(C, y);
    }
  }

  lemma ResizeTruth(C: Chunks, base: int, top: int, x: int, nb: int)
    requires Shape(C, base, top) && x in C && Next(C, x) == top && nb > 0
    ensures TruthfulTags(Resize(C, x, nb), base, x + nb)
  {
    hide Aligned, Apart;
    var C' := Resize(C, x, nb);
    forall y | y in C' && Next(C', y) in C' ensures C'[Next(C', y)].prevInUse == !C'[y].kind.Free? {
      if y != x { assert Next(C', y) == Next(C, y); }
    }
  }

  lemma ResizeApart(C: Chunks, base: int, top: int, x: int, nb: int)
    requires Shape(C, base, top) && x in C && C[x].kind.Used? && Next(C, x) == top && nb > 0
    ensures Apart(Resize(C, x, nb), x + nb)
  {
    hide Aligned, TruthfulTags;
    var C' := Resize(C, x, nb);
    forall y | y in C' ensures ApartAt(C', x + nb, y) {
      if y != x { assert Next(C', y) == Next(C, y) && ApartAt(C, top, y); }
    }
  }

  lemma ResizePlace(av: int, base: int, top: int, end: int, C: Chunks, x: int, nb: int)
    requires PlaceOk(av, base, top, end, C) && x in C && C[x].kind.Used? && Next(C, x) == top
    requires GoodSize(nb) && x + nb + MINSIZE <= end
    ensures PlaceOk(av, base, x + nb, end, Resize(C, x, nb))
  {
    assert Aligned(x);
    AlignedSum(x, nb);
    ResizeTiled(C, base, top, x, nb);
    ResizeTruth(C, base, top, x, nb);
    ResizeApart(C, base, top, x, nb);
    hide Aligned, Tiled, TruthfulTags, Apart;
  }

  lemma ResizeTags(av: int, base: int, top: int, end: int, C: Chunks, m: Mem, x: int, nb: int)
    requires PlaceOk(av, base, top, end, C) && TagsOk(m, C, {}) && x in C && C[x].kind.Used? && Next(C, x) == top
    requires GoodSize(nb)
    ensures
      var m' := m[x + SIZE := nb + Bit(C[x].prevInUse)][x + nb + SIZE := end - x - nb + 1];
      TagsOk(m', Resize(C, x, nb), {}) && TopOk(m', x + nb, end)
  {
    var C' := Resize(C, x, nb);
    var m' := m[x + SIZE := nb + Bit(C[x].prevInUse)][x + nb + SIZE := end - x - nb + 1];
    forall a | a in C' ensures HeadOk(m', C', a) {
      assert HeadOk(m, C, a);
    }
    forall a | a in C' && C'[a].kind.Binned() ensures FootOk(m', C', a) {
      assert FootOk(m, C, a) && Next(C', a) == Next(C, a);
      assert ApartAt(C, top, a);
      assert Next(C, a) in C;
    }
  }

  lemma ResizeKeepsLists(C: Chunks, lists: seq<seq<int>>, fast: seq<seq<int>>, x: int, nb: int)
    requires MembersOk(C, lists) && SortOk(C, lists) && FastOk(C, fast) && x in C && C[x].kind.Used?
    ensures MembersOk(Resize(C, x, nb), lists) && SortOk(Resize(C, x, nb), lists) && FastOk(Resize(C, x, nb), fast)
    ensures Live(Resize(C, x, nb)) == Live(C)[x := nb]
  {
    hide MembersOk, SortOk, FastOk;
    SameListedKeeps(C, Resize(C, x, nb), lists, fast);
  }

  lemma JoinPlace(av: int, base: int, top: int, end: int, C: Chunks, x: int)
    requires PlaceOk(av, base, top, end, C) && x in C && C[x].kind.Used? && Next(C, x) in C && C[Next(C, x)].kind.Used?
    ensures PlaceOk(av, base, top, end, Merge(C, x))
  {
    hide Aligned;
    MergeTiled(C, base, top, x);
    var C' := Merge(C, x);
    forall y | y in C' && Next(C', y) in C' ensures C'[Next(C', y)].prevInUse == !C'[y].kind.Free? {
      if y != x { assert Next(C', y) == Next(C, y); }
    }
    forall y | y in C' ensures ApartAt(C', top, y) {
      if y != x { assert Next(C', y) == Next(C, y) && ApartAt(C, top, y); }
    }
  }

  lemma JoinTags(av: int, base: int, top: int, end: int, C: Chunks, m: Mem, x: int)
    requires PlaceOk(av, base, top, end, C) && TagsOk(m, C, {}) && x in C && C[x].kind.Used?
    requires Next(C, x) in C && C[Next(C, x)].kind.Used?
    ensures TagsOk(m, Merge(C, x), {x})
  {
    MergeTiled(C, base, top, x);
    var C' := Merge(C, x);
    forall a | a in C' && a !in {x} ensures HeadOk(m, C', a) {
      assert HeadOk(m, C, a);
    }
    forall a | a in C' && a !in {x} && C'[a].kind.Binned() ensures FootOk(m, C', a) {
      assert FootOk(m, C, a) && Next(C', a) == Next(C, a);
    }
  }

  lemma JoinKeepsLists(av: int, base: int, top: int, end: int, C: Chunks, lists: seq<seq<int>>, fast: seq<seq<int>>, x: int)
    requires PlaceOk(av, base, top, end, C) && MembersOk(C, lists) && SortOk(C, lists) && FastOk(C, fast)
    requires x in C && C[x].kind.Used? && Next(C, x) in C && C[Next(C, x)].kind.Used?
    ensures MembersOk(Merge(C, x), lists) && SortOk(Merge(C, x), lists) && FastOk(Merge(C, x), fast)
    ensures Next(C, x) != x && Live(Merge(C, x)) == (Live(C) - {Next(C, x)})[x := C[x].size + C[Next(C, x)].size]
  {
    hide MembersOk, SortOk, FastOk;
    SameListedKeeps(C, Merge(C, x), lists, fast);
  }

  // The tiling depends on sizes only.
  lemma TiledSame(C: Chunks, C': Chunks, base: int, top: int)
    requires Tiled(C, base, top) && C'.Keys == C.Keys && forall y | y in C :: C'[y].size == C[y].size
    ensures Tiled(C', base, top)
  {
    hide Aligned;
    forall y | y in C' ensures Next(C', y) == top || Next(C', y) in C' {
      assert Next(C', y) == Next(C, y);
    }
  }

  lemma CutTruth(C: Chunks, base: int, top: int, x: int, nb: int)
    requires Shape(C, base, top) && x in C && C[x].kind.Used? && GoodSize(nb) && nb + MINSIZE <= C[x].size
    ensures TruthfulTags(Cut(C, x, nb), base, top)
  {
    SplitTiled(C, base, top, x, nb);
    hide Aligned, Apart;
    var C' := Cut(C, x, nb);
    forall y | y in C' && Next(C', y) in C' ensures C'[Next(C', y)].prevInUse == !C'[y].kind.Free? {
      if y != x && y != x + nb { assert Next(C', y) == Next(C, y) && Next(C, y) != x + nb; }
    }
  }

  lemma CutApart(C: Chunks, base: int, top: int, x: int, nb: int)
    requires Shape(C, base, top) && x in C && C[x].kind.Used? && GoodSize(nb) && nb + MINSIZE <= C[x].size
    ensures Apart(Cut(C, x, nb), top)
  {
    SplitTiled(C, base, top, x, nb);
    hide Aligned, Disjoint, TruthfulTags, Chained;
    var C' := Cut(C, x, nb);
    forall y | y in C' ensures ApartAt(C', top, y) {
      if y != x && y != x + nb { assert Next(C', y) == Next(C, y) && ApartAt(C, top, y); }
    }
  }

  lemma CutPlace(av: int, base: int, top: int, end: int, C: Chunks, x: int, nb: int)
    requires PlaceOk(av, base, top, end, C) && x in C && C[x].kind.Used? && GoodSize(nb) && nb + MINSIZE <= C[x].size
    ensures PlaceOk(av, base, top, end, Cut(C, x, nb)) && x + nb !in C
  {
    SplitTiled(C, base, top, x, nb);
    CutTruth(C, base, top, x, nb);
    CutApart(C, base, top, x, nb);
    TiledSame(Split(C, x, nb), Cut(C, x, nb), base, top);
    hide Aligned, Tiled, TruthfulTags, Apart;
  }

  lemma CutTags(av: int, base: int, top: int, end: int, C: Chunks, m: Mem, x: int, nb: int)
    requires PlaceOk(av, base, top, end, C) && TagsOk(m, C, {x}) && TopOk(m, top, end)
    requires x in C && C[x].kind.Used? && GoodSize(nb) && nb + MINSIZE <= C[x].size
    ensures
      var m' := m[x + SIZE := nb + Bit(C[x].prevInUse)][x + nb + SIZE := C[x].size - nb + 1];
      TagsOk(m', Cut(C, x, nb), {}) && TopOk(m', top, end)
  {
    var C' := Cut(C, x, nb);
    var m' := m[x + SIZE := nb + Bit(C[x].prevInUse)][x + nb + SIZE := C[x].size - nb + 1];
    Below(C, base, top, x);
    forall a | a in C' ensures HeadOk(m', C', a) {
      assert a != x && a != x + nb ==> HeadOk(m, C, a);
    }
    forall a | a in C' && C'[a].kind.Binned() ensures FootOk(m', C', a) {
      assert FootOk(m, C, a) && Next(C', a) == Next(C, a);
      assert ApartAt(C, top, a);
      assert Next(C, a) in C;
    }
  }

  lemma CutKeepsLists(av: int, base: int, top: int, end: int, C: Chunks, lists: seq<seq<int>>, fast: seq<seq<int>>, x: int, nb: int)
    requires PlaceOk(av, base, top, end, C) && MembersOk(C, lists) && SortOk(C, lists) && FastOk(C, fast)
    requires x in C && C[x].kind.Used? && GoodSize(nb) && nb + MINSIZE <= C[x].size
    ensures MembersOk(Cut(C, x, nb), lists) && SortOk(Cut(C, x, nb), lists) && FastOk(Cut(C, x, nb), fast)
    ensures Live(Cut(C, x, nb)) == Live(C)[x := nb][x + nb := C[x].size - nb] && x + nb !in Live(C)
  {
    hide MembersOk, SortOk, FastOk;
    SplitTiled(C, base, top, x, nb);
    SameListedKeeps(C, Cut(C, x, nb), lists, fast);
  }

  // Setting the in-use bit after a block that is in use already.
  lemma SameWrite(m: Mem, w: int)
    requires Rd(m, w) % 2 == 1
    ensures m[w := Rd(m, w) - Rd(m, w) % 2 + 1] == m
  {}

  lemma FlagAfter(av: int, base: int, top: int, end: int, C: Chunks, m: Mem, x: int)
    requires PlaceOk(av, base, top, end, C) && TagsOk(m, C, {x}) && TopOk(m, top, end)
    requires x in C && C[x].kind.Used?
    ensures Rd(m, Next(C, x) + SIZE) % 2 == 1 && 0 < x
  {
    assert Next(C, x) == top || Next(C, x) in C;
    if Next(C, x) in C {
      HeadReads(av, base, top, end, C, m, {x}, Next(C, x));
    } else {
      TopReads(av, base, top, end, C, m);
    }
  }

  // ---- The first n words of a block

  function Contents(m: Mem, p: int, n: nat): (s: seq<int>)
    ensures |s| == n && forall k | 0 <= k < n :: s[k] == Rd(m, p + 4 * k)
  {
    seq(n, k => Rd(m, p + 4 * k))
  }

  lemma ContentsKept(C: Chunks, m: Mem, m': Mem, x: int, n: nat)
    requires x in Live(C) && Untouched(C, m, m') && 4 * n + SIZE <= Live(C)[x]
    ensures Contents(m', x + 8, n) == Contents(m, x + 8, n)
  {
    forall k | 0 <= k < n ensures Rd(m', x + 8 + 4 * k) == Rd(m, x + 8 + 4 * k) {
      var w := x + 8 + 4 * k;
      assert x + 8 <= w < x + C[x].size + SIZE;
    }
  }

  lemma OtherContents(C: Chunks, m: Mem, m': Mem, x: int, y: int, n: nat)
    requires x in Live(C) && x != y && OthersUntouched(C, y, m, m') && 4 * n + SIZE <= Live(C)[x]
    ensures Contents(m', x + 8, n) == Contents(m, x + 8, n)
  {
    forall k | 0 <= k < n ensures Rd(m', x + 8 + 4 * k) == Rd(m, x + 8 + 4 * k) {
      var w := x + 8 + 4 * k;
      assert x + 8 <= w < x + Live(C)[x] + SIZE;
    }
  }

  // Every block of C is the front of a block of C'.
  ghost predicate Covers(C: Chunks, C': Chunks) {
    forall a | a in Live(C) :: a in Live(C') && Live(C)[a] <= Live(C')[a]
  }

  lemma UntouchedFront(C: Chunks, C': Chunks, m: Mem, m': Mem)
    requires Untouched(C', m, m') && Covers(C, C')
    ensures Untouched(C, m, m')
  {
    forall a, w | a in C && C[a].kind.Used? && a + 8 <= w < a + C[a].size + SIZE
      ensures Rd(m', w) == Rd(m, w)
    {
      assert a in Live(C);
    }
  }

  lemma LiveSize(C: Chunks, x: int)
    requires x in Live(C)
    ensures x in C && C[x].size == Live(C)[x] && Next(C, x) == x + Live(C)[x]
  {}

  lemma DropAdded(L: map<int, int>, r: int, size: int)
    requires r !in L
    ensures L[r := size] - {r} == L
  {}

  // The state between the two halves of a change: only the size word of x may be out of date.
  ghost predicate Pending(h: Heap, x: int)
    reads h
  {
    && h.GoodBounds() && h.heapStart <= h.brk <= h.heapEnd && h.maxFast == 72
    && h.Consistent({x}) && Settled(h.C) && h.FlagsOk()
    && x in h.C && h.C[x].kind.Used? && Rd(h.mem, x + SIZE) % 2 == Bit(h.C[x].prevInUse)
  }

  lemma ReadyIsPending(h: Heap, x: int)
    requires h.Valid() && x in Live(h.C)
    ensures h.Ready() && Pending(h, x) && h.C[x].size == Live(h.C)[x]
  {
    hide PlaceOk, TopOk, RingsOk, MembersOk, SortOk, MapOk, ChainsOk, FastOk;
    assert HeadOk(h.mem, h.C, x);
    RawMore(h.mem, h.C, {}, {x});
    HeadReads(h.av, h.base, h.top, h.brk, h.C, h.mem, {}, x);
  }

  // The size words of the two parts of a block that is cut.
  method CutBlock(h: Heap, x: int, size: int, nb: int)
    requires Pending(h, x) && size == h.C[x].size && GoodSize(nb) && nb + MINSIZE <= size
    modifies h`mem, h`C
    ensures h.Valid() && h.C == Cut(old(h.C), x, nb) && x + nb !in Live(old(h.C))
    ensures Live(h.C) == Live(old(h.C))[x := nb][x + nb := size - nb]
    ensures Untouched(h.C, old(h.mem), h.mem)
  {
    hide PlaceOk, TagsOk, TopOk, RingsOk, MembersOk, SortOk, MapOk, ChainsOk, FastOk, Untouched;
    ghost var C0, m0 := h.C, h.mem;
    CutTags(h.av, h.base, h.top, h.brk, h.C, h.mem, x, nb);
    CutPlace(h.av, h.base, h.top, h.brk, h.C, x, nb);
    CutKeepsLists(h.av, h.base, h.top, h.brk, h.C, h.lists, h.fast, x, nb);
    ghost var C1 := Cut(h.C, x, nb);
    ghost var bit := Bit(h.C[x].prevInUse);
    h.C := C1;
    TagWriteKeeps(h.av, h.base, h.top, h.brk, C1, h.mem, h.lists, h.fastbins, h.fast, x, x + SIZE, nb + bit);
    h.mem := h.mem[x + SIZE := nb + Rd(h.mem, x + SIZE) % 2];
    ghost var m1 := h.mem;
    TagWriteKeeps(h.av, h.base, h.top, h.brk, C1, h.mem, h.lists, h.fastbins, h.fast, x + nb, x + nb + SIZE, size - nb + 1);
    h.mem := h.mem[x + nb + SIZE := size - nb + 1];
    UntouchedThen(C1, C1, m0, m1, h.mem);
  }

  // The end of rEALLOc: block x keeps nb bytes, and what is left over is released if it is large
  // enough for a chunk.
  method KeepFront(h: Heap, x: int, newsize: int, nb: int)
    requires Pending(h, x) && newsize == h.C[x].size && GoodSize(nb) && nb <= newsize
    modifies h
    ensures h.Valid() && x in Live(h.C) && nb <= Live(h.C)[x] < nb + MINSIZE
    ensures Live(h.C) == Live(old(h.C))[x := Live(h.C)[x]]
    ensures Untouched(h.C, old(h.mem), h.mem)
  {
    hide PlaceOk, TagsOk, TopOk, RingsOk, MembersOk, SortOk, MapOk, ChainsOk, FastOk, Untouched;
    ghost var m0 := h.mem;
    FlagAfter(h.av, h.base, h.top, h.brk, h.C, h.mem, x);
    SameWrite(h.mem, x + newsize + SIZE);
    var w := Rd(h.mem, x + newsize + SIZE);
    h.mem := h.mem[x + newsize + SIZE := w - w % 2 + 1];
    var remainder_size := newsize - nb;
    if remainder_size < MINSIZE {
      WriteHead(h.av, h.base, h.top, h.brk, h.C, h.mem, {x}, x);
      assert {x} - {x} == {};
      TagWriteKeeps(h.av, h.base, h.top, h.brk, h.C, h.mem, h.lists, h.fastbins, h.fast, x, x + SIZE,
                    newsize + Bit(h.C[x].prevInUse));
      h.mem := h.mem[x + SIZE := newsize + Rd(h.mem, x + SIZE) % 2];
    } else {
      CutBlock(h, x, newsize, nb);
      ghost var C1, m1 := h.C, h.mem;
      ghost var L := Live(old(h.C))[x := nb];
      assert Live(C1) == L[x + nb := remainder_size];
      DropAdded(L, x + nb, remainder_size);
      h.MFree(x + nb + 8);
      assert Live(h.C) == L;
      UntouchedLess(C1, h.C, m0, m1);
      UntouchedThen(h.C, h.C, m0, m1, h.mem);
    }
  }

  // Two neighbouring blocks become one, whose size word is still to be written.
  ghost method JoinBlocks(h: Heap, x: int)
    requires h.Valid() && x in Live(h.C) && Next(h.C, x) in Live(h.C)
    modifies h`C
    ensures Pending(h, x) && h.C[x].size == old(h.C)[x].size + Live(old(h.C))[Next(old(h.C), x)]
    ensures Next(old(h.C), x) != x
    ensures Live(h.C) == (Live(old(h.C)) - {Next(old(h.C), x)})[x := h.C[x].size]
  {
    ReadyIsPending(h, x);
    hide PlaceOk, TagsOk, TopOk, RingsOk, MembersOk, SortOk, MapOk, ChainsOk, FastOk, Untouched;
    JoinTags(h.av, h.base, h.top, h.brk, h.C, h.mem, x);
    JoinPlace(h.av, h.base, h.top, h.brk, h.C, x);
    JoinKeepsLists(h.av, h.base, h.top, h.brk, h.C, h.lists, h.fast, x);
    h.C := Merge(h.C, x);
  }

  // The free chunk after block x leaves its bin and joins the block.
  method AbsorbNext(h: Heap, x: int, next: int, nextsize: int)
    requires h.Valid() && x in Live(h.C) && next == x + Live(h.C)[x]
    requires next in h.C && h.C[next].kind.Free? && nextsize == h.C[next].size
    modifies h`mem, h`C, h`lists
    ensures Pending(h, x) && h.C[x].size == Live(old(h.C))[x] + nextsize
    ensures Live(h.C) == Live(old(h.C))[x := h.C[x].size]
    ensures Untouched(old(h.C), old(h.mem), h.mem)
  {
    hide PlaceOk, TagsOk, TopOk, RingsOk, MembersOk, SortOk, MapOk, ChainsOk, FastOk, Untouched, Turn, Allocated;
    ReadyIsPending(h, x);
    ghost var C0, m0 := h.C, h.mem;
    BinnedNeighbours(h.av, h.base, h.top, h.brk, h.C, next);
    ghost var i, k := BinPosition(h.C, h.lists, next);
    TakenWhole(h.av, h.base, h.top, h.brk, h.C, next, nextsize);
    LiveSetKind(h.C, next, Free(0));
    h.Unlink(next, i, k, {});
    ghost var C1, m1 := h.C, h.mem;
    h.SetInuse(next, nextsize);
    AllocatedKeeps(C0, h.C, next, nextsize);
    UntouchedThen(C0, C1, m0, m1, h.mem);
    TurnFacts(h.av, h.base, h.top, h.brk, C1, next, Used);
    LiveTurn(h.av, h.base, h.top, h.brk, C1, next, Used);
    JoinBlocks(h, x);
    DropAdded(Live(C0), next, nextsize);
  }

  // The block that borders top takes what it needs from top.
  method ExpandIntoTop(h: Heap, x: int, nb: int)
    requires h.Valid() && x in Live(h.C) && x + Live(h.C)[x] == h.top && Live(h.C)[x] <= nb
    requires GoodSize(nb) && x + nb + MINSIZE <= h.brk
    modifies h`mem, h`C, h`top
    ensures h.Valid() && Live(h.C) == Live(old(h.C))[x := nb]
    ensures Untouched(old(h.C), old(h.mem), h.mem)
  {
    hide PlaceOk, TagsOk, TopOk, RingsOk, MembersOk, SortOk, MapOk, ChainsOk, FastOk, Untouched;
    ReadyIsPending(h, x);
    ghost var C0, m0 := h.C, h.mem;
    TopReads(h.av, h.base, h.top, h.brk, h.C, h.mem);
    var newsize := h.top - x + ChunkSize(Rd(h.mem, h.top + SIZE));
    ResizeTags(h.av, h.base, h.top, h.brk, h.C, h.mem, x, nb);
    ResizePlace(h.av, h.base, h.top, h.brk, h.C, x, nb);
    ResizeKeepsLists(h.C, h.lists, h.fast, x, nb);
    ghost var C1 := Resize(h.C, x, nb);
    ghost var bit := Bit(h.C[x].prevInUse);
    h.C := C1;
    h.top := x + nb;
    TagWriteKeeps(h.av, h.base, h.top, h.brk, C1, h.mem, h.lists, h.fastbins, h.fast, x, x + SIZE, nb + bit);
    h.mem := h.mem[x + SIZE := nb + Rd(h.mem, x + SIZE) % 2];
    ghost var m1 := h.mem;
    TagWriteKeeps(h.av, h.base, h.top, h.brk, C1, h.mem, h.lists, h.fastbins, h.fast, h.top, h.top + SIZE, newsize - nb + 1);
    h.mem := h.mem[x + nb + SIZE := newsize - nb + 1];
    UntouchedThen(C1, C1, m0, m1, h.mem);
    UntouchedFront(C0, C1, m0, h.mem);
  }

  // memset(p, 0, n): whole words, and then the low bytes of the last one.
  method MemSet(h: Heap, p: int, n: int)
    requires h.Valid() && p - 8 in Live(h.C) && Aligned(p) && 0 <= n && n % 4 <= 1 && n + 3 + SIZE <= Live(h.C)[p - 8]
    modifies h`mem
    ensures h.Valid() && OthersUntouched(h.C, p - 8, old(h.mem), h.mem)
    ensures forall k | 0 <= k < n / 4 :: Rd(h.mem, p + 4 * k) == 0
    ensures n % 4 == 1 ==> var w := Rd(old(h.mem), p + 4 * (n / 4)); Rd(h.mem, p + 4 * (n / 4)) == w - w % 256
  {
    hide Heap.Valid, Live, OthersUntouched, Aligned, Zeroed;
    ghost var m0 := h.mem;
    Clear(h, p, 0, n / 4);
    forall k | 0 <= k < n / 4 ensures Rd(h.mem, p + 4 * k) == 0 {
      ZeroedReads(m0, p, 0, n / 4, k);
    }
    ZeroedReads(m0, p, 0, n / 4, n / 4);
    if n % 4 == 1 {
      ghost var m1 := h.mem;
      WordAligned(p, n / 4);
      var w := Rd(h.mem, p + 4 * (n / 4));
      h.Write(p - 8, p + 4 * (n / 4), w - w % 256);
      OthersTwice(h.C, p - 8, m0, m1, h.mem);
    }
  }

  // The number of words that the unrolled copy of rEALLOc moves.
  function Unrolled(ncopies: int): (r: int)
    requires 3 <= ncopies <= 9 && ncopies % 2 == 1
    ensures r == ncopies
  {
    if ncopies > 4 then if ncopies > 6 then if ncopies > 8 then 9 else 7 else 5 else 3
  }

  // MALLOC_COPY: the first n words of one block go to another.
  method CopyWords(h: Heap, d: int, s: int, n: int)
    requires h.Valid() && d - 8 in Live(h.C) && s - 8 in Live(h.C) && d != s && Aligned(d)
    requires 0 <= n && 4 * n + SIZE <= Live(h.C)[d - 8] && 4 * n + SIZE <= Live(h.C)[s - 8]
    modifies h`mem
    ensures h.Valid() && Contents(h.mem, d, n) == Contents(old(h.mem), s, n)
    ensures OthersUntouched(h.C, d - 8, old(h.mem), h.mem)
  {
    hide Heap.Valid, Live, OthersUntouched, Aligned;
    ghost var m0 := h.mem;
    NothingWritten(h.C, d - 8, h.mem);
    var k := 0;
    while k < n
      invariant 0 <= k <= n && h.Valid() && OthersUntouched(h.C, d - 8, m0, h.mem)
      invariant Contents(h.mem, d, k) == Contents(m0, s, k)
    {
      ghost var m1 := h.mem;
      OtherContents(h.C, m0, m1, s - 8, d - 8, k + 1);
      WordAligned(d, k);
      h.Write(d - 8, d + 4 * k, Rd(h.mem, s + 4 * k));
      OthersTwice(h.C, d - 8, m0, m1, h.mem);
      ContentsPut(m1, d, k, Rd(m1, s + 4 * k));
      ContentsMore(h.mem, d, k);
      ContentsMore(m1, s, k);
      ContentsMore(m0, s, k);
      k := k + 1;
    }
  }

  lemma ContentsMore(m: Mem, p: int, n: nat)
    ensures Contents(m, p, n + 1) == Contents(m, p, n) + [Rd(m, p + 4 * n)]
  {}

  lemma ContentsPut(m: Mem, p: int, n: nat, v: int)
    ensures Contents(m[p + 4 * n := v], p, n) == Contents(m, p, n)
  {}

  // ---- rEALLOc

  // Block x became block y, which holds nb bytes and wastes less than MINSIZE; it is a new block
  // unless y is x.
  ghost predicate Resized(C0: Chunks, C: Chunks, x: int, y: int, nb: int) {
    && x in Live(C0) && y in Live(C) && Aligned(y) && (y == x || y !in Live(C0))
    && Live(C) == (Live(C0) - {x})[y := Live(C)[y]] && nb <= Live(C)[y] < nb + MINSIZE
  }

  // The words that fit in both the old and the new block.
  function Common(oldsize: int, newsize: int): (n: nat)
    requires MINSIZE <= oldsize && MINSIZE <= newsize
    ensures 4 * n + SIZE <= oldsize && 4 * n + SIZE <= newsize
  {
    (if oldsize <= newsize then oldsize else newsize) / 4 - 1
  }

  // Block x is large enough, or top or a free chunk behind it makes it so.
  ghost predicate RoomInPlace(C: Chunks, top: int, end: int, x: int, nb: int) {
    && x in Live(C)
    && (|| nb <= Live(C)[x]
        || (x + Live(C)[x] == top && nb + MINSIZE <= end - x)
        || (var n := x + Live(C)[x]; n in C && C[n].kind.Free? && nb <= Live(C)[x] + C[n].size))
  }

  // The contents of the block are those of the old one, as far as both reach.
  ghost predicate Carried(C0: Chunks, C: Chunks, m0: Mem, m: Mem, x: int, y: int) {
    && x in Live(C0) && y in Live(C) && MINSIZE <= Live(C0)[x] && MINSIZE <= Live(C)[y]
    && Contents(m, y + 8, Common(Live(C0)[x], Live(C)[y])) == Contents(m0, x + 8, Common(Live(C0)[x], Live(C)[y]))
  }

  lemma OthersOf(C0: Chunks, C: Chunks, x: int, m: Mem, m': Mem)
    requires Untouched(C, m, m') && forall b | b in Live(C0) && b != x :: b in Live(C) && Live(C)[b] == Live(C0)[b]
    ensures OthersUntouched(C0, x, m, m')
  {
    forall b, u | b in Live(C0) && b != x && b + 8 <= u < b + Live(C0)[b] + SIZE
      ensures Rd(m', u) == Rd(m, u)
    {
      assert b in Live(C);
    }
  }

  lemma OthersOfMore(C: Chunks, x: int, m: Mem, m': Mem)
    requires Untouched(C, m, m')
    ensures OthersUntouched(C, x, m, m')
  {
    OthersOf(C, C, x, m, m');
  }

  lemma BlockFacts(h: Heap, x: int)
    requires h.Valid() && x in Live(h.C)
    ensures h.Ready() && 0 < x && GoodSize(Live(h.C)[x]) && Aligned(x) && x + Live(h.C)[x] <= h.top < h.brk < WORD
    ensures ChunkSize(Rd(h.mem, x + SIZE)) == Live(h.C)[x]
    ensures h.top !in h.C && (x + Live(h.C)[x] == h.top || x + Live(h.C)[x] in h.C)
    ensures ChunkSize(Rd(h.mem, h.top + SIZE)) == h.brk - h.top
  {
    hide RingsOk, MembersOk, SortOk, MapOk, ChainsOk, FastOk;
    HeadReads(h.av, h.base, h.top, h.brk, h.C, h.mem, {}, x);
    TopReads(h.av, h.base, h.top, h.brk, h.C, h.mem);
  }

  lemma NextFacts(h: Heap, next: int)
    requires h.Valid() && h.Ready() && next in h.C
    ensures ChunkSize(Rd(h.mem, next + SIZE)) == h.C[next].size && next != h.top && MINSIZE <= h.C[next].size
    ensures PrevInUse(Rd(h.mem, next + h.C[next].size + SIZE)) == !h.C[next].kind.Free?
  {
    hide RingsOk, MembersOk, SortOk, MapOk, ChainsOk, FastOk;
    HeadReads(h.av, h.base, h.top, h.brk, h.C, h.mem, {}, next);
    TopReads(h.av, h.base, h.top, h.brk, h.C, h.mem);
    NextInUse(h.av, h.base, h.top, h.brk, h.C, h.mem, {}, next);
  }

  // The branches of rEALLOc that leave the block where it is.
  method ResizeInPlace(h: Heap, x: int, nb: int) returns (done: bool)
    requires h.Valid() && x in Live(h.C) && GoodSize(nb) && nb + MINSIZE < WORD
    modifies h
    ensures h.Valid() && done == RoomInPlace(old(h.C), old(h.top), old(h.brk), x, nb)
    ensures !done ==> h.C == old(h.C) && h.mem == old(h.mem) && h.brk == old(h.brk)
    ensures done ==> Resized(old(h.C), h.C, x, x, nb) && OthersUntouched(old(h.C), x, old(h.mem), h.mem)
    ensures done ==> Carried(old(h.C), h.C, old(h.mem), h.mem, x, x)
  {
    hide Heap.Valid, Heap.Ready, Untouched, OthersUntouched, Live;
    ghost var C0, m0 := h.C, h.mem;
    BlockFacts(h, x);
    var oldsize := ChunkSize(Rd(h.mem, x + SIZE));
    var next := x + oldsize;
    if oldsize >= nb {
      ReadyIsPending(h, x);
      UntouchedSame(C0, m0);
      KeepFront(h, x, oldsize, nb);
      InPlace(C0, h.C, m0, m0, h.mem, x, nb);
      return true;
    }
    if next == h.top {
      var newsize := oldsize + ChunkSize(Rd(h.mem, next + SIZE));
      if newsize < nb + MINSIZE { return false; }
      ExpandIntoTop(h, x, nb);
      UntouchedSame(h.C, h.mem);
      InPlace(C0, h.C, m0, h.mem, h.mem, x, nb);
      return true;
    }
    NextFacts(h, next);
    var nextsize := ChunkSize(Rd(h.mem, next + SIZE));
    if PrevInUse(Rd(h.mem, next + nextsize + SIZE)) || oldsize + nextsize < nb { return false; }
    AbsorbNext(h, x, next, nextsize);
    ghost var C1, m1 := h.C, h.mem;
    KeepFront(h, x, oldsize + nextsize, nb);
    InPlace(C0, h.C, m0, m1, h.mem, x, nb);
    return true;
  }

  // The old blocks are kept up to m1, and all blocks from then on.
  lemma InPlace(C0: Chunks, C: Chunks, m0: Mem, m1: Mem, m: Mem, x: int, nb: int)
    requires x in Live(C0) && x in Live(C) && Aligned(x) && MINSIZE <= Live(C0)[x] && GoodSize(nb)
    requires Live(C) == Live(C0)[x := Live(C)[x]] && nb <= Live(C)[x] < nb + MINSIZE
    requires Untouched(C0, m0, m1) && Untouched(C, m1, m)
    ensures Resized(C0, C, x, x, nb) && OthersUntouched(C0, x, m0, m) && Carried(C0, C, m0, m, x, x)
  {
    hide Untouched;
    var n := Common(Live(C0)[x], Live(C)[x]);
    ContentsKept(C0, m0, m1, x, n);
    ContentsKept(C, m1, m, x, n);
    OthersOfMore(C0, x, m0, m1);
    OthersOf(C0, C, x, m1, m);
    OthersTwice(C0, x, m0, m1, m);
  }

  lemma NewAndOld(C0: Chunks, C: Chunks, x: int, y: int, nb: int)
    requires x in Live(C0) && Allocated(C0, C, y, nb)
    ensures y in Live(C) && y !in Live(C0) && x != y && x in Live(C) && Live(C)[x] == Live(C0)[x]
    ensures Live(C) == Live(C0)[y := Live(C)[y]] && nb <= Live(C)[y] < nb + MINSIZE && Aligned(y) && 0 < y
  {}

  // The contents go to the new block and the old block is released.
  method MoveTo(h: Heap, x: int, newp: int, oldsize: int)
    requires h.Valid() && x in Live(h.C) && newp in Live(h.C) && x != newp && Aligned(newp)
    requires oldsize == Live(h.C)[x] <= Live(h.C)[newp]
    modifies h
    ensures h.Valid() && Live(h.C) == Live(old(h.C)) - {x} && OthersUntouched(h.C, newp, old(h.mem), h.mem)
    ensures oldsize % 8 == 0 && 16 <= oldsize
    ensures Contents(h.mem, newp + 8, oldsize / 4 - 1) == Contents(old(h.mem), x + 8, oldsize / 4 - 1)
  {
    hide Heap.Valid, Heap.Ready, Untouched, OthersUntouched, Live;
    BlockFacts(h, x);
    assert Aligned(oldsize);
    ghost var C1, m2 := h.C, h.mem;
    var copysize := oldsize - SIZE;
    var ncopies := copysize / 4;
    CopyWords(h, newp + 8, x + 8, if ncopies > 9 then ncopies else Unrolled(ncopies));
    ghost var m3 := h.mem;
    h.MFree(x + 8);
    assert Live(h.C) == Live(C1) - {x};
    ContentsKept(h.C, m3, h.mem, newp, ncopies);
    OthersFewer(C1, h.C, x, newp, m2, m3);
    OthersOfMore(h.C, newp, m3, h.mem);
    OthersTwice(h.C, newp, m2, m3, h.mem);
  }

  lemma OthersFewer(C: Chunks, C': Chunks, x: int, y: int, m: Mem, m': Mem)
    requires OthersUntouched(C, y, m, m') && Live(C') == Live(C) - {x}
    ensures OthersUntouched(C', y, m, m')
  {
    forall b, u | b in Live(C') && b != y && b + 8 <= u < b + Live(C')[b] + SIZE
      ensures Rd(m', u) == Rd(m, u)
    {
      assert b in Live(C);
    }
  }

  lemma Moved(C0: Chunks, C1: Chunks, C: Chunks, m0: Mem, m2: Mem, m: Mem, x: int, y: int, nb: int)
    requires x in Live(C0) && y !in Live(C0) && y in Live(C1) && Aligned(y) && Live(C0)[x] < nb && GoodSize(nb)
    requires Live(C1) == Live(C0)[y := Live(C1)[y]] && nb <= Live(C1)[y] < nb + MINSIZE && Live(C) == Live(C1) - {x}
    requires MINSIZE <= Live(C0)[x] && Untouched(C0, m0, m2) && OthersUntouched(C, y, m2, m)
    requires Contents(m, y + 8, Live(C0)[x] / 4 - 1) == Contents(m2, x + 8, Live(C0)[x] / 4 - 1)
    ensures Resized(C0, C, x, y, nb) && OthersUntouched(C0, x, m0, m) && Carried(C0, C, m0, m, x, y)
  {
    var n := Live(C0)[x] / 4 - 1;
    ContentsKept(C0, m0, m2, x, n);
    assert y in Live(C) && Live(C)[y] == Live(C1)[y] && Common(Live(C0)[x], Live(C)[y]) == n;
    assert Live(C) == (Live(C0) - {x})[y := Live(C)[y]];
    forall b, u | b in Live(C0) && b != x && b + 8 <= u < b + Live(C0)[b] + SIZE
      ensures Rd(m, u) == Rd(m0, u)
    {
      assert b in Live(C) && Live(C)[b] == Live(C0)[b] && b in C0;
    }
  }

  // "allocate, copy, free": the new block may turn out to lie right behind the old one.
  method Relocate(h: Heap, x: int, nb: int) returns (p: int)
    requires h.Valid() && x in Live(h.C) && Live(h.C)[x] < nb && GoodSize(nb) && nb + MINSIZE < WORD
    modifies h
    ensures h.Valid() && (p == 0 || 8 < p)
    ensures p == 0 ==> Live(h.C) == Live(old(h.C)) && Untouched(old(h.C), old(h.mem), h.mem) && h.Exhausted(nb, old(h.brk))
    ensures p != 0 ==> Resized(old(h.C), h.C, x, p - 8, nb) && OthersUntouched(old(h.C), x, old(h.mem), h.mem)
    ensures p != 0 ==> Carried(old(h.C), h.C, old(h.mem), h.mem, x, p - 8)
  {
    hide Heap.Explained, Heap.Pinned, Heap.Remembered, Heap.LastReady, Heap.Steady, Heap.HitsFast, UseAll, FrontInUse;
    hide Heap.Valid, Heap.Ready, Untouched, OthersUntouched, Live, Resized, Carried, Contents, Common;
    ghost var C0, m0 := h.C, h.mem;
    BlockFacts(h, x);
    var oldsize := ChunkSize(Rd(h.mem, x + SIZE));
    RetrySize(nb);
    var newmem, how, seen := h.MAlloc(nb - 7);
    if newmem == 0 { return 0; }
    var newp := newmem - 8;
    NewAndOld(C0, h.C, x, newp, nb);
    ghost var C1, m1 := h.C, h.mem;
    MemSet(h, newmem, nb - 7);
    ghost var m2 := h.mem;
    OthersAreOld(C0, C1, newp, m0, m1, m2);
    BlockFacts(h, newp);
    var newsize := ChunkSize(Rd(h.mem, newp + SIZE));
    if newp == x + oldsize {
      newsize := newsize + oldsize;
      LiveSize(h.C, x);
      JoinBlocks(h, x);
      KeepFront(h, x, newsize, nb);
      DropAdded(Live(C0), newp, Live(C1)[newp]);
      InPlace(C0, h.C, m0, m2, h.mem, x, nb);
      return x + 8;
    }
    MoveTo(h, x, newp, oldsize);
    Moved(C0, C1, h.C, m0, m2, h.mem, x, newp, nb);
    return newmem;
  }

  // rEALLOc.
  method ReAlloc(h: Heap, oldmem: int, bytes: int) returns (p: int)
    requires h.Valid() && 0 <= bytes < WORD && (oldmem != 0 ==> oldmem - 8 in Live(h.C))
    modifies h
    ensures h.Valid() && (p == 0 || 8 < p)
    ensures p == 0 ==> Live(h.C) == Live(old(h.C)) && Untouched(old(h.C), old(h.mem), h.mem)
    ensures p == 0 ==> OutOfRange(bytes) || h.Exhausted(Request2Size(bytes), old(h.brk))
    ensures p != 0 ==> !OutOfRange(bytes)
    ensures p != 0 && oldmem == 0 ==>
              Allocated(old(h.C), h.C, p - 8, Request2Size(bytes)) && Untouched(old(h.C), old(h.mem), h.mem)
    ensures p != 0 && oldmem != 0 ==>
              && Resized(old(h.C), h.C, oldmem - 8, p - 8, Request2Size(bytes))
              && OthersUntouched(old(h.C), oldmem - 8, old(h.mem), h.mem)
              && Carried(old(h.C), h.C, old(h.mem), h.mem, oldmem - 8, p - 8)
    ensures oldmem != 0 && !OutOfRange(bytes) ==>
              RoomInPlace(old(h.C), old(h.top), old(h.brk), oldmem - 8, Request2Size(bytes)) ==> p == oldmem
  {
    hide Heap.Valid, Heap.Ready, Untouched, OthersUntouched, Live, Allocated, Carried, Resized, RoomInPlace;
    if oldmem == 0 {
      ghost var how, seen;
      p, how, seen := h.MAlloc(bytes);
      if p != 0 { AllocatedAbove(old(h.C), h.C, p - 8, Request2Size(bytes)); }
      return;
    }
    UntouchedSame(h.C, h.mem);
    if OutOfRange(bytes) { return 0; }
    var nb := Request2Size(bytes);
    RequestFits(bytes);
    BlockFacts(h, oldmem - 8);
    var done := ResizeInPlace(h, oldmem - 8, nb);
    if done { return oldmem; }
    NoRoom(old(h.C), old(h.top), old(h.brk), oldmem - 8, nb);
    p := Relocate(h, oldmem - 8, nb);
  }

  lemma AllocatedAbove(C0: Chunks, C: Chunks, x: int, nb: int)
    requires Allocated(C0, C, x, nb)
    ensures 0 < x
  {}

  lemma NoRoom(C: Chunks, top: int, end: int, x: int, nb: int)
    requires x in Live(C) && !RoomInPlace(C, top, end, x, nb)
    ensures Live(C)[x] < nb
  {}

  // ---- mEMALIGn

  predicate PowerOfTwo(a: int)
    decreases a
  {
    a == 1 || (a > 1 && a % 2 == 0 && PowerOfTwo(a / 2))
  }

  // The first power of two from a on that is at least n.
  function PowerFrom(a: int, n: int): (r: int)
    requires a > 0
    ensures r >= a
    decreases n - a
  {
    if a >= n then a else PowerFrom(2 * a, n)
  }

  lemma {:induction false} PowerFromFacts(a: int, n: int)
    requires a > 0 && PowerOfTwo(a)
    ensures PowerOfTwo(PowerFrom(a, n)) && n <= PowerFrom(a, n) && a <= PowerFrom(a, n)
    ensures a <= n ==> PowerFrom(a, n) < 2 * n
    decreases n - a
  {
    if a < n {
      assert PowerOfTwo(2 * a) by { assert 2 * a / 2 == a && 2 * a % 2 == 0; }
      hide PowerOfTwo;
      PowerFromFacts(2 * a, n);
    }
  }

  // The alignment that mEMALIGn really gives when `alignment` is asked for.
  function AlignmentFor(alignment: int): (a: int)
    ensures a >= 8
  {
    if alignment <= 8 then 8
    else if alignment < MINSIZE then MINSIZE
    else if PowerOfTwo(alignment) then alignment
    else PowerFrom(16, alignment)
  }

  lemma AlignmentFacts(alignment: int)
    ensures PowerOfTwo(AlignmentFor(alignment)) && alignment <= AlignmentFor(alignment)
    ensures alignment > 8 ==> AlignmentFor(alignment) >= 16
    ensures PowerOfTwo(alignment) && (alignment == 8 || alignment >= 16) ==> AlignmentFor(alignment) == alignment
  {
    assert PowerOfTwo(1) && PowerOfTwo(2) && PowerOfTwo(4) && PowerOfTwo(8) && PowerOfTwo(16);
    if alignment > 16 { PowerFromFacts(16, alignment); }
  }

  lemma {:induction false} PowersApart(a: int, b: int)
    requires PowerOfTwo(a) && PowerOfTwo(b) && a < b
    ensures 2 * a <= b
    decreases a
  {
    if a > 1 { PowersApart(a / 2, b / 2); }
  }

  lemma {:induction false} PowerFromLeast(a: int, n: int, b: int)
    requires PowerOfTwo(a) && PowerOfTwo(b) && a <= b && n <= b
    ensures PowerFrom(a, n) <= b
    decreases b - a
  {
    if a < n {
      PowersApart(a, b);
      assert PowerOfTwo(2 * a) by { assert 2 * a / 2 == a && 2 * a % 2 == 0; }
      hide PowerOfTwo;
      PowerFromLeast(2 * a, n, b);
    }
  }

  // No smaller power of two from 16 on would do.
  lemma AlignmentLeast(alignment: int, b: int)
    requires PowerOfTwo(b) && b >= 16 && alignment <= b
    ensures AlignmentFor(alignment) <= b
  {
    assert PowerOfTwo(1) && PowerOfTwo(2) && PowerOfTwo(4) && PowerOfTwo(8) && PowerOfTwo(16);
    PowerFromLeast(16, alignment, b);
  }

  lemma PowerMultiple(a: int, b: int)
    requires PowerOfTwo(a) && b in {2, 4, 8, 16} && a >= b
    ensures a % b == 0
    decreases b
  {
    if b > 2 { PowerMultiple(a / 2, b / 2); }
  }

  function RoundUpTo(m: int, a: int): int
    requires a > 0
  {
    (m + a - 1) / a * a
  }

  lemma RoundUpToFacts(m: int, a: int)
    requires a > 0 && 0 <= m
    ensures m <= RoundUpTo(m, a) < m + a && RoundUpTo(m, a) % a == 0
    ensures m % a == 0 ==> RoundUpTo(m, a) == m
  {
    var q := (m + a - 1) / a;
    Euclid(m + a - 1, a);
    QuotientIs(a * q, a, q, 0);
    assert RoundUpTo(m, a) == a * q;
    if m % a == 0 {
      Euclid(m, a);
      QuotientIs(m + a - 1, a, m / a, a - 1);
    }
  }

  // The first chunk after p whose block is aligned and that leaves room for a chunk before it.
  function AlignedChunk(p: int, a: int): int
    requires a > 0
  {
    var brk := RoundUpTo(p + 8, a) - 8;
    if brk - p < MINSIZE then brk + a else brk
  }

  lemma MultipleOf16(a: int, q: int)
    requires a % 16 == 0
    ensures a * q % 16 == 0
  {
    Euclid(a, 16);
    assert a * q == 16 * (a / 16 * q);
  }

  lemma NextMultiple(r: int, a: int)
    requires a >= 16 && a % 16 == 0 && r % a == 0
    ensures r % 16 == 0 && (r + a) % a == 0
  {
    Euclid(r, a);
    MultipleOf16(a, r / a);
    assert a * (r / a + 1) == r + a;
    QuotientIs(r + a, a, r / a + 1, 0);
  }

  lemma LeaderSize(p: int, r: int, a: int)
    requires Aligned(p) && r % 16 == 0 && a % 16 == 0 && p + 8 < r < p + 8 + a
    ensures
      var lead := if r - 8 - p < MINSIZE then r - 8 + a - p else r - 8 - p;
      MINSIZE <= lead <= a + 8 && Aligned(lead)
  {}

  lemma AlignedChunkFacts(p: int, a: int)
    requires Aligned(p) && p >= 0 && a >= 16 && a % 16 == 0 && (p + 8) % a != 0
    ensures MINSIZE <= AlignedChunk(p, a) - p <= a + 8 && Aligned(AlignedChunk(p, a) - p)
    ensures (AlignedChunk(p, a) + 8) % a == 0
  {
    var r := RoundUpTo(p + 8, a);
    RoundUpToFacts(p + 8, a);
    NextMultiple(r, a);
    LeaderSize(p, r, a);
    hide RoundUpTo, Aligned;
  }

  // Block y, part of a chunk that was free, holds nb bytes.
  ghost predicate Placed(C0: Chunks, C: Chunks, y: int, nb: int) {
    && 0 < y && y !in Live(C0) && y in Live(C)
    && Live(C) == Live(C0)[y := Live(C)[y]] && nb <= Live(C)[y] <= nb + MINSIZE
  }

  // "give back leader, use the rest"
  method ReleaseLeader(h: Heap, x: int, a: int) returns (y: int)
    requires h.Valid() && x in Live(h.C) && a >= 16 && a % 16 == 0 && (x + 8) % a != 0
    requires a + 8 + MINSIZE <= Live(h.C)[x]
    modifies h
    ensures h.Valid() && (y + 8) % a == 0 && x < y <= x + a + 8 && y !in Live(old(h.C))
    ensures Live(h.C) == (Live(old(h.C)) - {x})[y := Live(old(h.C))[x] - (y - x)]
    ensures Untouched(h.C, old(h.mem), h.mem)
  {
    hide Heap.Valid, Heap.Ready, Untouched, Live, PowerOfTwo, AlignedChunk;
    ghost var L, m0 := Live(h.C), h.mem;
    BlockFacts(h, x);
    AlignedChunkFacts(x, a);
    ReadyIsPending(h, x);
    y := AlignedChunk(x, a);
    var size := ChunkSize(Rd(h.mem, x + SIZE));
    var leadsize := y - x;
    LastFlag(h, x);
    SameWrite(h.mem, x + size + SIZE);
    var w := Rd(h.mem, x + size + SIZE);
    h.mem := h.mem[x + size + SIZE := w - w % 2 + 1];
    CutBlock(h, x, size, leadsize);
    ghost var C1, m1 := h.C, h.mem;
    LeadDropped(L, x, leadsize, y, size - leadsize);
    h.MFree(x + 8);
    assert Live(h.C) == Live(C1) - {x};
    AllocatedSame(h.C, h.C);
    LessLive(C1, h.C, x);
    UntouchedLess(C1, h.C, m0, m1);
    UntouchedThen(h.C, h.C, m0, m1, h.mem);
  }

  lemma LastFlag(h: Heap, x: int)
    requires Pending(h, x)
    ensures Rd(h.mem, x + h.C[x].size + SIZE) % 2 == 1
  {
    hide RingsOk, MembersOk, SortOk, MapOk, ChainsOk, FastOk;
    FlagAfter(h.av, h.base, h.top, h.brk, h.C, h.mem, x);
  }

  lemma LeadDropped(L: map<int, int>, x: int, s1: int, y: int, s2: int)
    requires x != y
    ensures L[x := s1][y := s2] - {x} == (L - {x})[y := s2]
  {}

  lemma LessLive(C: Chunks, C': Chunks, x: int)
    requires Live(C') == Live(C) - {x}
    ensures Keeps(C', C)
  {}

  // "Also give back spare room at the end"
  method ReleaseTail(h: Heap, y: int, nb: int)
    requires h.Valid() && y in Live(h.C) && GoodSize(nb) && nb <= Live(h.C)[y]
    modifies h
    ensures h.Valid() && y in Live(h.C) && nb <= Live(h.C)[y] <= nb + MINSIZE
    ensures Live(h.C)[y] == if Live(old(h.C))[y] > nb + 16 then nb else Live(old(h.C))[y]
    ensures Live(h.C) == Live(old(h.C))[y := Live(h.C)[y]] && Live(h.C)[y] <= Live(old(h.C))[y]
    ensures Untouched(h.C, old(h.mem), h.mem)
  {
    hide Heap.Valid, Heap.Ready, Untouched, Live;
    ghost var L, m0 := Live(h.C), h.mem;
    BlockFacts(h, y);
    UntouchedSame(h.C, h.mem);
    var size := ChunkSize(Rd(h.mem, y + SIZE));
    if size > nb + MINSIZE {
      ReadyIsPending(h, y);
      CutBlock(h, y, size, nb);
      ghost var C1, m1 := h.C, h.mem;
      DropAdded(L[y := nb], y + nb, size - nb);
      h.MFree(y + nb + 8);
      assert Live(h.C) == L[y := nb];
      LessLive(C1, h.C, y + nb);
      UntouchedLess(C1, h.C, m0, m1);
      UntouchedThen(h.C, h.C, m0, m1, h.mem);
    }
  }

  // The size that mEMALIGn needs from mALLOc. The source adds in 32 bits.
  function Padded(alignment: int, bytes: int): int {
    if alignment <= 8 then bytes else Request2Size(bytes) + AlignmentFor(alignment) + MINSIZE
  }

  // How a call of mEMALIGn can end. TooShort: the padded size wrapped round, and the chunk at m
  // is smaller than the request; what the source does next writes behind it. Endless: doubling
  // never reaches the alignment.
  datatype Placement = NoMemory | Block(p: int) | TooShort(m: int) | Endless

  // The values of the variable `a` in the doubling loop.
  function Doubled(k: nat): int {
    if k == 0 then 16 else 2 * Doubled(k - 1) % WORD
  }

  lemma {:induction false} DoubledIs(k: nat)
    ensures Doubled(k) == if k <= 27 then 16 * Pow2(k) else 0
  {
    if k > 0 {
      DoubledIs(k - 1);
      if k <= 27 {
        PowerBelow(k);
        hide Pow2;
      } else {
        Pow2Of32();
        hide Pow2;
      }
    }
  }

  lemma PowerBelow(k: nat)
    requires 1 <= k <= 27
    ensures Pow2(k) == 2 * Pow2(k - 1) && 16 * Pow2(k) <= WORD / 2
  {
    Pow2Of32();
    if k < 27 { Pow2Mono(k, 27); }
  }

  // For an alignment above 2^31 the loop never ends.
  lemma DoublingNeverEnds(k: nat, alignment: int)
    requires alignment > WORD / 2
    ensures Doubled(k) < alignment
  {
    DoubledIs(k);
    if 1 <= k <= 27 { PowerBelow(k); }
  }

  // For every other alignment it ends with the power of two that PowerFrom gives.
  lemma PowerBounded(alignment: int)
    requires alignment <= WORD / 2
    ensures AlignmentFor(alignment) <= WORD / 2
  {
    if alignment > 16 && !PowerOfTwo(alignment) {
      PowerBelow(27);
      Pow2Of32();
      PowerFromBelow(16, alignment, 27);
    }
  }

  lemma {:induction false} PowerFromBelow(a: int, n: int, k: nat)
    requires a > 0 && n <= a * Pow2(k)
    ensures PowerFrom(a, n) <= a * Pow2(k)
    decreases k
  {
    if a < n {
      assert a * Pow2(k) == 2 * a * Pow2(k - 1);
      PowerFromBelow(2 * a, n, k - 1);
    } else {
      assert a * Pow2(k) >= a by { MulAtLeast(a, Pow2(k)); }
    }
  }

  predicate AlignedTo(p: int, a: int) {
    a != 0 && p % a == 0
  }

  // What mEMALIGn does with the block that it got: the part before an aligned address and the
  // part that is not needed are given back.
  method AlignBlock(h: Heap, x: int, a: int, nb: int) returns (y: int)
    requires h.Valid() && x in Live(h.C) && a >= 16 && a % 16 == 0 && GoodSize(nb) && nb + a + MINSIZE <= Live(h.C)[x]
    modifies h
    ensures h.Valid() && 0 < y && AlignedTo(y + 8, a) && y in Live(h.C) && (y == x || y !in Live(old(h.C)))
    ensures Live(h.C) == (Live(old(h.C)) - {x})[y := Live(h.C)[y]] && nb <= Live(h.C)[y] <= nb + MINSIZE
    ensures Untouched(h.C, old(h.mem), h.mem)
  {
    hide Heap.Valid, Heap.Ready, Untouched, Live, Aligned;
    ghost var C0, m0 := h.C, h.mem;
    BlockFacts(h, x);
    UntouchedSame(h.C, h.mem);
    y := x;
    if !AlignedTo(x + 8, a) {
      y := ReleaseLeader(h, x, a);
    }
    ghost var C1, m1 := h.C, h.mem;
    ReleaseTail(h, y, nb);
    ShorterFront(C1, h.C, y, m0, m1);
    UntouchedThen(h.C, h.C, m0, m1, h.mem);
  }

  // Block y became shorter.
  lemma ShorterFront(C: Chunks, C': Chunks, y: int, m: Mem, m': Mem)
    requires y in Live(C) && y in Live(C') && Live(C') == Live(C)[y := Live(C')[y]] && Live(C')[y] <= Live(C)[y]
    requires Untouched(C, m, m')
    ensures Untouched(C', m, m') && Keeps(C', C')
  {
    UntouchedFront(C', C, m, m');
  }

  // mEMALIGn places the block exactly when the padded size is a 32-bit number and there is memory.
  method MemAlign(h: Heap, alignment: int, bytes: int) returns (r: Placement)
    requires h.Valid() && 0 <= alignment < WORD && 0 <= bytes < WORD
    modifies h
    ensures r == Endless <==> alignment > WORD / 2
    ensures h.Valid() && Untouched(old(h.C), old(h.mem), h.mem)
    ensures r == Endless || r == NoMemory ==> Live(h.C) == Live(old(h.C))
    ensures r.Block? || r.TooShort? ==> !OutOfRange(bytes) && (r.Block? <==> Padded(alignment, bytes) < WORD)
    ensures r.Block? ==> Placed(old(h.C), h.C, r.p - 8, Request2Size(bytes)) && AlignedTo(r.p, AlignmentFor(alignment))
    ensures r.TooShort? ==>
              r.m - 8 in Live(h.C) && Live(h.C)[r.m - 8] < Request2Size(bytes)
              && Live(h.C) == Live(old(h.C))[r.m - 8 := Live(h.C)[r.m - 8]]
    ensures r == NoMemory ==>
              OutOfRange(bytes) || OutOfRange(Padded(alignment, bytes) % WORD)
              || h.Exhausted(Request2Size(Padded(alignment, bytes) % WORD), old(h.brk))
  {
    hide Heap.Valid, Heap.Ready, Untouched, Live, Heap.Exhausted, AlignmentFor, Request2Size, Placed, AlignedTo, Allocated;
    UntouchedSame(h.C, h.mem);
    if alignment <= 8 {
      ghost var how, seen;
      var p;
      ghost var C0 := h.C;
      p, how, seen := h.MAlloc(bytes);
      if p == 0 { return NoMemory; }
      AllocatedPlaced(C0, h.C, p - 8, Request2Size(bytes));
      SmallAlignment(alignment, p);
      return Block(p);
    }
    if alignment > WORD / 2 { return Endless; }
    AlignmentFacts(alignment);
    PowerMultiple(AlignmentFor(alignment), 16);
    PowerBounded(alignment);
    hide PowerOfTwo;
    var a := Alignment(alignment);
    if OutOfRange(bytes) { return NoMemory; }
    var nb := Request2Size(bytes);
    RequestFits(bytes);
    r := PlaceAligned(h, a, nb);
  }

  // mEMALIGn behind its adjustments, for an alignment of at least MINSIZE.
  method PlaceAligned(h: Heap, a: int, nb: int) returns (r: Placement)
    requires h.Valid() && 16 <= a <= WORD / 2 && a % 16 == 0 && GoodSize(nb) && nb + MINSIZE < WORD
    modifies h
    ensures r != Endless && h.Valid() && Untouched(old(h.C), old(h.mem), h.mem)
    ensures r == NoMemory ==> Live(h.C) == Live(old(h.C))
    ensures r == NoMemory ==> OutOfRange((nb + a + MINSIZE) % WORD) || h.Exhausted(Request2Size((nb + a + MINSIZE) % WORD), old(h.brk))
    ensures r != NoMemory ==> (r.Block? <==> nb + a + MINSIZE < WORD)
    ensures r.Block? ==> Placed(old(h.C), h.C, r.p - 8, nb) && AlignedTo(r.p, a)
    ensures r.TooShort? ==>
              r.m - 8 in Live(h.C) && Live(h.C)[r.m - 8] < nb && Live(h.C) == Live(old(h.C))[r.m - 8 := Live(h.C)[r.m - 8]]
  {
    hide Heap.Explained, Heap.Pinned, Heap.Remembered, Heap.LastReady, Heap.Steady, Heap.HitsFast, UseAll, FrontInUse;
    hide Heap.Valid, Heap.Ready, Untouched, OthersUntouched, Live, Heap.Exhausted, Request2Size, AlignedTo, Allocated;
    ghost var C0, m0 := h.C, h.mem;
    ghost var how, seen;
    var size := (nb + a + MINSIZE) % WORD;
    var m;
    m, how, seen := h.MAlloc(size);
    if m == 0 { return NoMemory; }
    AllocatedPlaced(C0, h.C, m - 8, Request2Size(size));
    if nb + a + MINSIZE >= WORD {
      ShortChunk(C0, h.C, m - 8, nb, a);
      return TooShort(m);
    }
    PaddedSize(nb, a);
    ghost var C1, m1 := h.C, h.mem;
    MemSet(h, m, size);
    ghost var m2 := h.mem;
    OthersAreOld(C0, C1, m - 8, m0, m1, m2);
    var y := AlignBlock(h, m - 8, a, nb);
    PlacedInside(C0, C1, h.C, m - 8, y, nb);
    UntouchedThen(C0, h.C, m0, m2, h.mem);
    r := Block(y + 8);
  }

  lemma SmallAlignment(alignment: int, p: int)
    requires alignment <= 8 && Aligned(p)
    ensures AlignedTo(p, AlignmentFor(alignment))
  {}

  // A wrapped sum is less than the request by almost 2^31 at least.
  lemma ShortChunk(C0: Chunks, C: Chunks, x: int, nb: int, a: int)
    requires nb + MINSIZE < WORD && a <= WORD / 2 && nb + a + MINSIZE >= WORD
    requires Allocated(C0, C, x, Request2Size((nb + a + MINSIZE) % WORD)) && !OutOfRange((nb + a + MINSIZE) % WORD)
    ensures x in Live(C) && Live(C)[x] < nb && Live(C) == Live(C0)[x := Live(C)[x]]
  {
    var size := (nb + a + MINSIZE) % WORD;
    assert size == nb + a + MINSIZE - WORD;
    RequestFits(size);
  }

  lemma PaddedSize(nb: int, a: int)
    requires GoodSize(nb) && a >= 16 && a % 16 == 0
    ensures (nb + a + MINSIZE) % 4 == 0 && Request2Size(nb + a + MINSIZE) == nb + a + MINSIZE + 8
  {
    assert Aligned(nb + a + MINSIZE);
  }

  lemma PlacedInside(C0: Chunks, C1: Chunks, C: Chunks, x: int, y: int, nb: int)
    requires x !in Live(C0) && x in Live(C1) && Live(C1) == Live(C0)[x := Live(C1)[x]]
    requires 0 < y && y in Live(C) && (y == x || y !in Live(C1)) && Live(C) == (Live(C1) - {x})[y := Live(C)[y]]
    requires nb <= Live(C)[y] <= nb + MINSIZE
    ensures Placed(C0, C, y, nb) && Keeps(C0, C)
  {
    assert Live(C1) - {x} == Live(C0);
  }

  // The three adjustments of the alignment at the start of mEMALIGn.
  method Alignment(alignment: int) returns (a: int)
    requires 8 < alignment <= WORD / 2
    ensures a == AlignmentFor(alignment)
  {
    a := if alignment < MINSIZE then MINSIZE else alignment;
    assert PowerOfTwo(1) && PowerOfTwo(2) && PowerOfTwo(4) && PowerOfTwo(8) && PowerOfTwo(16);
    if !PowerOfTwo(a) {
      a := 16;
      while a < alignment
        invariant 0 < a && PowerFrom(16, alignment) == PowerFrom(a, alignment)
        decreases alignment - a
      {
        a := 2 * a % WORD;
      }
    }
  }

  lemma AllocatedPlaced(C0: Chunks, C: Chunks, y: int, nb: int)
    requires Allocated(C0, C, y, nb)
    ensures Placed(C0, C, y, nb) && Aligned(y) && Aligned(y + 8)
  {}

  lemma {:induction false} PowerOfPow2(k: nat)
    ensures PowerOfTwo(Pow2(k))
  {
    if k > 0 { PowerOfPow2(k - 1); }
  }

  lemma GreatAlignment()
    ensures AlignmentFor(0x8000_0000) == 0x8000_0000 && Padded(0x8000_0000, 0x7fff_fff4) == WORD + 8
    ensures !OutOfRange(0x7fff_fff4) && !OutOfRange(8) && Request2Size(8) == 16
  {
    PowerOfPow2(31);
    Pow2Of32();
    hide PowerOfTwo, Pow2;
  }

  // A first request for almost 2^31 bytes aligned to 2^31 gets a chunk of a few bytes.
  method WrappedRequest() returns (h: Heap, r: Placement)
    ensures h.Valid() && r.TooShort? && r.m - 8 in Live(h.C) && Live(h.C)[r.m - 8] < Request2Size(0x7fff_fff4)
  {
    hide Heap.Valid, Live, Padded, Request2Size, OutOfRange, PowerOfTwo, AlignmentFor;
    h := new Heap(1024, 4096, 0x10_0000);
    GreatAlignment();
    r := MemAlign(h, 0x8000_0000, 0x7fff_fff4);
  }
}
