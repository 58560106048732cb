// independent_calloc and independent_comalloc: one chunk from mALLOc is divided into many blocks.
module IndependentAlloc {
  import opened HeapRings
  import opened HeapLayout
  import opened BinIndex
  import opened HeapInvariant
  import opened HeapSteps
  import opened HeapTheorems
  import opened Malloc
  import opened GuardedMalloc
  import opened Realloc
  import opened Words

  // ---- Writes inside one chunk

  ghost predicate OnlyInside(m: Mem, m': Mem, lo: int, hi: int) {
    forall w | Rd(m', w) != Rd(m, w) :: lo <= w < hi
  }

  lemma WriteInside(m: Mem, m1: Mem, lo: int, hi: int, w: int, v: int)
    requires OnlyInside(m, m1, lo, hi) && lo <= w < hi
    ensures OnlyInside(m, m1[w := v], lo, hi)
  {}

  lemma InsideSame(m: Mem, lo: int, hi: int)
    ensures OnlyInside(m, m, lo, hi)
  {}

  lemma OddHead(m: Mem, x: int, p: int, v: int)
    requires if p == x then Aligned(v) else Rd(m, x + SIZE) % 2 == 1
    ensures Rd(m[p + SIZE := v + 1], x + SIZE) % 2 == 1
  {}

  lemma InsideThen(m: Mem, m1: Mem, m2: Mem, lo: int, hi: int, lo': int, hi': int)
    requires OnlyInside(m, m1, lo, hi) && OnlyInside(m1, m2, lo', hi') && lo <= lo' && hi' <= hi
    ensures OnlyInside(m, m2, lo, hi)
  {
    forall w | Rd(m2, w) != Rd(m, w) ensures lo <= w < hi {
      assert Rd(m2, w) != Rd(m1, w) || Rd(m1, w) != Rd(m, w);
    }
  }

  lemma ZeroedInside(m: Mem, p: int, words: int)
    requires words >= 0
    ensures OnlyInside(m, Zeroed(m, p, 0, words), p, p + 4 * words)
    decreases words
  {
    if words > 0 {
      ZeroedInside(m, p, words - 1);
      assert Zeroed(m, p, 0, words) == Zeroed(m, p, 0, words - 1)[p + 4 * (words - 1) := 0];
    }
  }

  // ---- A heap whose tags cannot be true

  // Chunks and lists as the words of memory show them.
  ghost predicate Reading(av: int, base: int, top: int, end: int, D: Chunks, m: Mem, lists: seq<seq<int>>) {
    PlaceOk(av, base, top, end, D) && TagsOk(m, D, {}) && RingsOk(m, av, lists) && MembersOk(D, lists)
  }

  // No arena whatsoever, with whatever states of its chunks, has these size words and these bins.
  ghost predicate Unreadable(av: int, m: Mem) {
    forall base, top, end, D, lists :: !Reading(av, base, top, end, D, m, lists)
  }

  // The words of memory determine the list of a bin.
  lemma {:induction false} RingPrefix(m: Mem, av: int, h: int, L: seq<int>, L': seq<int>, k: int)
    requires Nodes(av, h, L) && Ring(m, h, L) && Nodes(av, h, L') && Ring(m, h, L') && 0 <= k <= |L|
    ensures k <= |L'| && L[..k] == L'[..k]
    decreases k
  {
    if k > 0 {
      RingPrefix(m, av, h, L, L', k - 1);
      assert LinkOk(m, h, L, k - 2) && LinkOk(m, h, L', k - 2);
      assert At(h, L, k - 2) == At(h, L', k - 2);
      assert At(h, L', k - 1) == L[k - 1] != h;
    }
  }

  lemma RingUnique(m: Mem, av: int, i: int, L: seq<int>, L': seq<int>)
    requires RingAt(m, av, i, L) && RingAt(m, av, i, L')
    ensures L == L'
  {
    RingPrefix(m, av, Hdr(av, i), L, L', |L|);
    RingPrefix(m, av, Hdr(av, i), L', L, |L'|);
  }

  // In every reading a chunk of a bin is marked as free behind it.
  lemma BinnedIsMarked(av: int, base: int, top: int, end: int, D: Chunks, m: Mem, lists: seq<seq<int>>,
                       i: int, L: seq<int>, q: int, size: int)
    requires 1 <= i < NBINS && RingAt(m, av, i, L) && q in L
    requires Aligned(size) && Rd(m, q + SIZE) in {size, size + 1}
    requires Reading(av, base, top, end, D, m, lists)
    ensures Rd(m, q + size + SIZE) % 2 == 0
  {
    assert RingAt(m, av, i, lists[i]);
    RingUnique(m, av, i, L, lists[i]);
    hide RingAt, RingsOk, Ring, Nodes;
    assert BinMember(D, i, q);
    HeadReads(av, base, top, end, D, m, {}, q);
    assert ApartAt(D, top, q);
    HeadReads(av, base, top, end, D, m, {}, Next(D, q));
  }

  // A chunk of a bin that is marked as in use makes every reading impossible.
  lemma FalseFlag(av: int, m: Mem, i: int, L: seq<int>, q: int, size: int)
    requires 1 <= i < NBINS && RingAt(m, av, i, L) && q in L
    requires Aligned(size) && Rd(m, q + SIZE) in {size, size + 1} && Rd(m, q + size + SIZE) % 2 == 1
    ensures Unreadable(av, m)
  {
    forall base, top, end, D, lists ensures !Reading(av, base, top, end, D, m, lists) {
      if Reading(av, base, top, end, D, m, lists) {
        BinnedIsMarked(av, base, top, end, D, m, lists, i, L, q, size);
      }
    }
  }

  // The free chunk before x is where it was, and the flag of x is set.
  lemma MarkedBehindFree(av: int, base: int, top: int, end: int, C: Chunks, m: Mem, m': Mem, lists: seq<seq<int>>, x: int)
    requires PlaceOk(av, base, top, end, C) && Settled(C) && TagsOk(m, C, {}) && RingsOk(m, av, lists) && MembersOk(C, lists)
    requires x in C && !C[x].prevInUse && C[x].kind.Used?
    requires OnlyInside(m, m', x + SIZE, x + C[x].size + SIZE) && Rd(m', x + SIZE) % 2 == 1
    ensures Unreadable(av, m')
  {
    var q := PrevBinned(av, base, top, end, C, m, x);
    var i, k := BinPosition(C, lists, q);
    assert lists[i][k] in lists[i];
    HeadReads(av, base, top, end, C, m, {}, q);
    assert HeadOk(m, C, q);
    RingStays(av, base, top, end, C, m, m', lists, x, i);
    FalseFlag(av, m', i, lists[i], q, C[q].size);
  }

  function Span(lo: int, hi: int): (ws: set<int>)
    ensures forall w :: w in ws <==> lo <= w < hi
    decreases hi - lo
  {
    if lo >= hi then {} else {lo} + Span(lo + 1, hi)
  }

  lemma RingStays(av: int, base: int, top: int, end: int, C: Chunks, m: Mem, m': Mem, lists: seq<seq<int>>, x: int, i: int)
    requires PlaceOk(av, base, top, end, C) && RingsOk(m, av, lists) && MembersOk(C, lists) && 1 <= i < NBINS
    requires x in C && C[x].kind.Used? && OnlyInside(m, m', x + SIZE, x + C[x].size + SIZE)
    ensures RingAt(m', av, i, lists[i])
  {
    var h, L, lo, hi := Hdr(av, i), lists[i], x + SIZE, x + C[x].size + SIZE;
    assert RingAt(m, av, i, L);
    var ws := Span(lo, hi);
    forall k | -1 <= k < |L| ensures At(h, L, k) + FD !in ws && At(h, L, k) + BK !in ws {
      if k >= 0 {
        RingMember(C, lists, i, k);
        Below(C, base, top, L[k]);
        Below(C, base, top, x);
      }
    }
    assert SameOutside(m, m', ws);
    RingFrame(av, m, m', h, L, ws);
  }

  // ---- Dividing a block

  // Block x has its place, but its size word may be anything.
  ghost predicate Opened(h: Heap, x: int)
    reads h
  {
    && h.GoodBounds() && h.heapStart <= h.brk <= h.heapEnd && h.maxFast == 72
    && h.Consistent({x}) && Settled(h.C) && h.FlagsOk()
    && FrontInUse(h.C, x) && h.C[x].kind.Used?
  }

  lemma OpenBlock(h: Heap, x: int)
    requires h.Valid() && x in Live(h.C) && FrontInUse(h.C, x)
    ensures Opened(h, x) && h.C[x].size == Live(h.C)[x]
  {
    hide PlaceOk, TopOk, RingsOk, MembersOk, SortOk, MapOk, ChainsOk, FastOk;
    RawMore(h.mem, h.C, {}, {x});
  }

  lemma CutOpenTags(av: int, base: int, top: int, end: int, C: Chunks, m: Mem, x: int, nb: int)
    requires PlaceOk(av, base, top, end, C) && TagsOk(m, C, {x}) && TopOk(m, top, end)
    requires x in C && C[x].kind.Used? && GoodSize(nb) && nb + MINSIZE <= C[x].size
    ensures
      var m' := m[x + SIZE := nb + Bit(C[x].prevInUse)];
      TagsOk(m', Cut(C, x, nb), {x + nb}) && TopOk(m', top, end)
  {
    var C' := Cut(C, x, nb);
    var m' := m[x + SIZE := nb + Bit(C[x].prevInUse)];
    Below(C, base, top, x);
    forall a | a in C' && a !in {x + nb} ensures HeadOk(m', C', a) {
      assert a != x ==> HeadOk(m, C, a);
    }
    forall a | a in C' && a !in {x + nb} && C'[a].kind.Binned() ensures FootOk(m', C', a) {
      assert FootOk(m, C, a) && Next(C', a) == Next(C, a);
      assert ApartAt(C, top, a);
      assert Next(C, a) in C;
    }
  }

  lemma CutTailTags(av: int, base: int, top: int, end: int, C: Chunks, m: Mem, x: int, nb: int)
    requires PlaceOk(av, base, top, end, C) && TagsOk(m, C, {x}) && TopOk(m, top, end)
    requires x in C && C[x].kind.Used? && GoodSize(nb) && nb + MINSIZE <= C[x].size
    ensures
      var m' := m[x + nb + SIZE := C[x].size - nb + 1];
      TagsOk(m', Cut(C, x, nb), {x}) && TopOk(m', top, end)
  {
    var C' := Cut(C, x, nb);
    var m' := m[x + nb + SIZE := C[x].size - nb + 1];
    Below(C, base, top, x);
    forall a | a in C' && a !in {x} ensures HeadOk(m', C', a) {
      assert a != x + nb ==> HeadOk(m, C, a);
    }
    forall a | a in C' && a !in {x} && C'[a].kind.Binned() ensures FootOk(m', C', a) {
      assert FootOk(m, C, a) && Next(C', a) == Next(C, a);
      assert ApartAt(C, top, a);
      assert Next(C, a) in C;
    }
  }

  // set_head of the first nb bytes of the block; the rest is open now. `sound` says whether the
  // flag of the first block may be set.
  method FirstPart(h: Heap, x: int, nb: int, ghost sound: bool)
    requires sound ==> Opened(h, x) && GoodSize(nb) && nb + MINSIZE <= h.C[x].size
    modifies h`mem, h`C
    ensures h.mem == old(h.mem)[x + SIZE := nb + 1]
    ensures !sound ==> h.C == old(h.C)
    ensures sound ==>
              && x in old(h.C) && h.C == Cut(old(h.C), x, nb) && Opened(h, x + nb) && h.C[x + nb].size == old(h.C)[x].size - nb
              && x + nb !in Live(old(h.C)) && Live(h.C) == Live(old(h.C))[x := nb][x + nb := h.C[x + nb].size]
              && Untouched(h.C, old(h.mem), h.mem)
  {
    hide PlaceOk, TagsOk, TopOk, RingsOk, MembersOk, SortOk, MapOk, ChainsOk, FastOk, Untouched;
    if sound {
      CutOpenTags(h.av, h.base, h.top, h.brk, h.C, h.mem, x, nb);
      CutPlace(h.av, h.base, h.top, h.brk, h.C, x, nb);
      CutKeepsLists(h.av, h.base, h.top, h.brk, h.C, h.lists, h.fast, x, nb);
      h.C := Cut(h.C, x, nb);
      TagWriteKeeps(h.av, h.base, h.top, h.brk, h.C, h.mem, h.lists, h.fastbins, h.fast, x, x + SIZE, nb + 1);
    }
    h.mem := h.mem[x + SIZE := nb + 1];
  }

  // set_head of a whole open block
  method LastPart(h: Heap, x: int, size: int, ghost sound: bool)
    requires sound ==> Opened(h, x) && size == h.C[x].size
    modifies h`mem
    ensures h.mem == old(h.mem)[x + SIZE := size + 1]
    ensures sound ==> h.Valid() && Untouched(h.C, old(h.mem), h.mem)
  {
    hide PlaceOk, TagsOk, TopOk, RingsOk, MembersOk, SortOk, MapOk, ChainsOk, FastOk, Untouched;
    if sound {
      WriteHead(h.av, h.base, h.top, h.brk, h.C, h.mem, {x}, x);
      assert {x} - {x} == {};
      TagWriteKeeps(h.av, h.base, h.top, h.brk, h.C, h.mem, h.lists, h.fastbins, h.fast, x, x + SIZE, size + 1);
    }
    h.mem := h.mem[x + SIZE := size + 1];
  }

  // set_head of the part behind the first nb bytes, which stay open
  method TailPart(h: Heap, x: int, size: int, nb: int, ghost sound: bool)
    requires sound ==> Opened(h, x) && size == h.C[x].size && GoodSize(nb) && nb + MINSIZE <= size
    modifies h`mem, h`C
    ensures h.mem == old(h.mem)[x + nb + SIZE := size - nb + 1]
    ensures !sound ==> h.C == old(h.C)
    ensures sound ==>
              && x in old(h.C) && h.C == Cut(old(h.C), x, nb)
              && Opened(h, x) && h.C[x].size == nb && x + nb !in Live(old(h.C))
              && Live(h.C) == Live(old(h.C))[x := nb][x + nb := size - nb]
              && Untouched(h.C, old(h.mem), h.mem)
  {
    hide PlaceOk, TagsOk, TopOk, RingsOk, MembersOk, SortOk, MapOk, ChainsOk, FastOk, Untouched;
    if sound {
      CutTailTags(h.av, h.base, h.top, h.brk, h.C, h.mem, x, nb);
      CutPlace(h.av, h.base, h.top, h.brk, h.C, x, nb);
      CutKeepsLists(h.av, h.base, h.top, h.brk, h.C, h.lists, h.fast, x, nb);
      h.C := Cut(h.C, x, nb);
      TagWriteKeeps(h.av, h.base, h.top, h.brk, h.C, h.mem, h.lists, h.fastbins, h.fast, x + nb, x + nb + SIZE, size - nb + 1);
    }
    h.mem := h.mem[x + nb + SIZE := size - nb + 1];
  }

  // ---- A row of blocks

  function Sum(sz: seq<int>): int {
    if sz == [] then 0 else sz[0] + Sum(sz[1..])
  }

  // Where the blocks are that start at chunk x and have these sizes.
  function Addresses(x: int, sz: seq<int>): (a: seq<int>)
    ensures |a| == |sz|
    decreases |sz|
  {
    if sz == [] then [] else [x + 8] + Addresses(x + sz[0], sz[1..])
  }

  // The chunks themselves: all of the sizes given, but the last one takes what is left of `rem`.
  function Row(x: int, sz: seq<int>, rem: int): map<int, int>
    decreases |sz|
  {
    if sz == [] then map[]
    else if |sz| == 1 then map[x := rem]
    else Row(x + sz[0], sz[1..], rem - sz[0])[x := sz[0]]
  }

  ghost predicate Sizes(sz: seq<int>) {
    forall i | 0 <= i < |sz| :: GoodSize(sz[i])
  }

  lemma {:induction false} SumAtLeast(sz: seq<int>)
    requires Sizes(sz)
    ensures Aligned(Sum(sz)) && Sum(sz) >= 16 * |sz|
  {
    if sz != [] { SumAtLeast(sz[1..]); }
  }

  lemma RowUnfolds(x: int, sz: seq<int>, rem: int)
    requires |sz| > 1
    ensures Row(x, sz, rem) == Row(x + sz[0], sz[1..], rem - sz[0])[x := sz[0]]
    ensures Addresses(x, sz) == [x + 8] + Addresses(x + sz[0], sz[1..]) && Sum(sz) == sz[0] + Sum(sz[1..])
  {}

  lemma RowFirst(x: int, sz: seq<int>, rem: int)
    requires Sizes(sz) && sz != [] && Sum(sz) <= rem
    ensures Addresses(x, sz)[0] == x + 8 && x in Row(x, sz, rem) && sz[0] <= Row(x, sz, rem)[x] <= rem && sz[0] >= MINSIZE
  {
    assert GoodSize(sz[0]);
    hide Aligned;
    if |sz| > 1 {
      RowUnfolds(x, sz, rem);
      SumAtLeast(sz[1..]);
    }
  }

  lemma SizesTail(sz: seq<int>)
    requires Sizes(sz) && sz != []
    ensures Sizes(sz[1..]) && sz[0] >= MINSIZE && Aligned(sz[0])
  {
    assert GoodSize(sz[0]);
  }

  // The i-th block of a row: its size, and its place behind the blocks before it.
  lemma {:induction false} RowAt(x: int, sz: seq<int>, rem: int, i: int)
    requires Sizes(sz) && Sum(sz) <= rem && 0 <= i < |sz|
    ensures
      var c := Addresses(x, sz)[i] - 8;
      && x <= c && c in Row(x, sz, rem) && sz[i] <= Row(x, sz, rem)[c] && c + Row(x, sz, rem)[c] <= x + rem
      && (i > 0 ==> x + sz[0] <= c)
    decreases |sz|
  {
    hide Sizes, Sum, Row, Addresses;
    RowFirst(x, sz, rem);
    if i > 0 {
      SizesTail(sz);
      RowUnfolds(x, sz, rem);
      RowAt(x + sz[0], sz[1..], rem - sz[0], i - 1);
    }
  }

  lemma {:induction false} RowAligned(x: int, sz: seq<int>, i: int)
    requires Sizes(sz) && Aligned(x) && 0 <= i < |sz|
    ensures Aligned(Addresses(x, sz)[i] - 8)
    decreases |sz|
  {
    if i > 0 {
      SizesTail(sz);
      AlignedSum(x, sz[0]);
      hide Aligned;
      RowAligned(x + sz[0], sz[1..], i - 1);
    }
  }

  lemma {:induction false} RowOrder(x: int, sz: seq<int>, rem: int, i: int, j: int)
    requires Sizes(sz) && Sum(sz) <= rem && 0 <= i < j < |sz|
    ensures Addresses(x, sz)[i] + sz[i] <= Addresses(x, sz)[j]
    decreases |sz|
  {
    hide Sizes, Sum, Row, Addresses;
    RowFirst(x, sz, rem);
    if i == 0 {
      RowAt(x, sz, rem, j);
    } else {
      SizesTail(sz);
      RowUnfolds(x, sz, rem);
      RowOrder(x + sz[0], sz[1..], rem - sz[0], i - 1, j - 1);
    }
  }

  lemma {:induction false} RowOnly(x: int, sz: seq<int>, rem: int, c: int)
    requires Sizes(sz) && c in Row(x, sz, rem)
    ensures c + 8 in Addresses(x, sz) && x <= c
    decreases |sz|
  {
    if |sz| > 1 && c != x {
      RowOnly(x + sz[0], sz[1..], rem - sz[0], c);
      assert Addresses(x, sz) == [x + 8] + Addresses(x + sz[0], sz[1..]);
    } else {
      assert Addresses(x, sz)[0] == x + 8;
    }
  }

  lemma RowStep(L: map<int, int>, p: int, sz: seq<int>, rem: int)
    requires Sizes(sz) && |sz| > 1 && p + sz[0] !in L
    ensures
      var q := p + sz[0];
      (L[p := sz[0]][q := rem - sz[0]] - {q}) + Row(q, sz[1..], rem - sz[0]) == (L - {p}) + Row(p, sz, rem)
  {
    var q := p + sz[0];
    assert p !in Row(q, sz[1..], rem - sz[0]) by {
      if p in Row(q, sz[1..], rem - sz[0]) { RowOnly(q, sz[1..], rem - sz[0], p); }
    }
    assert L[p := sz[0]][q := rem - sz[0]] - {q} == L[p := sz[0]];
  }

  lemma RowEnd(L: map<int, int>, p: int, sz: seq<int>, rem: int)
    requires |sz| == 1 && p in L && L[p] == rem
    ensures (L - {p}) + Row(p, sz, rem) == L
  {}

  // Both parts of a block that is cut are as much unchanged as the block was.
  lemma CutWithin(av: int, base: int, top: int, end: int, C: Chunks, x: int, nb: int, m: Mem, m': Mem)
    requires PlaceOk(av, base, top, end, C) && x in C && C[x].kind.Used? && GoodSize(nb) && nb + MINSIZE <= C[x].size
    requires Untouched(C, m, m')
    ensures Untouched(Cut(C, x, nb), m, m')
  {
    var C' := Cut(C, x, nb);
    forall a, w | a in C' && C'[a].kind.Used? && a + 8 <= w < a + C'[a].size + SIZE
      ensures Rd(m', w) == Rd(m, w)
    {
      var b := if a == x + nb then x else a;
      assert b in C && C[b].kind.Used? && b + 8 <= w < b + C[b].size + SIZE;
    }
  }

  lemma OpenCutWithin(h: Heap, x: int, nb: int, m: Mem)
    requires Opened(h, x) && GoodSize(nb) && nb + MINSIZE <= h.C[x].size && Untouched(h.C, m, h.mem)
    ensures Untouched(Cut(h.C, x, nb), m, h.mem)
  {
    CutWithin(h.av, h.base, h.top, h.brk, h.C, x, nb, m, h.mem);
  }

  // "split out elements"
  method SplitOut(h: Heap, x: int, sz: seq<int>, total: int, ghost sound: bool, ghost m0: Mem) returns (elems: seq<int>)
    requires sz != [] && Sizes(sz) && Sum(sz) <= total && Aligned(total)
    requires sound ==> Opened(h, x) && h.C[x].size == total && Untouched(h.C, m0, h.mem)
    modifies h`mem, h`C
    ensures elems == Addresses(x, sz)
    ensures OnlyInside(old(h.mem), h.mem, x + SIZE, x + total) && Rd(h.mem, x + SIZE) % 2 == 1
    ensures !sound ==> h.C == old(h.C)
    ensures sound ==>
              && h.Valid() && Untouched(h.C, m0, h.mem)
              && Live(h.C) == (Live(old(h.C)) - {x}) + Row(x, sz, total)
  {
    hide Opened, Untouched, Live, Cut, Heap.Valid, Row, Addresses, Sum, Sizes, OnlyInside, Aligned;
    SizesTail(sz);
    var p, remainder_size := x, total;
    elems := [];
    InsideSame(h.mem, x + SIZE, x + total);
    assert sz[0..] == sz;
    ghost var L := (Live(h.C) - {x}) + Row(x, sz, total);
    var i := 0;
    if sound { OpenLive(h, x); }
    while i != |sz| - 1
      invariant 0 <= i < |sz| && elems + Addresses(p, sz[i..]) == Addresses(x, sz)
      invariant Sum(sz[i..]) <= remainder_size && x <= p && p + remainder_size == x + total && (if i > 0 then x + MINSIZE <= p else p == x)
      invariant OnlyInside(old(h.mem), h.mem, x + SIZE, x + total) && (i > 0 ==> Rd(h.mem, x + SIZE) % 2 == 1)
      invariant !sound ==> h.C == old(h.C)
      invariant sound ==> Opened(h, p) && p in h.C && h.C[p].size == remainder_size
      invariant sound ==> Untouched(h.C, m0, h.mem) && (Live(h.C) - {p}) + Row(p, sz[i..], remainder_size) == L
      decreases |sz| - i
    {
      var size := sz[i];
      ghost var rest := sz[i..];
      assert rest[1..] == sz[i + 1..] && rest[0] == size;
      SizesFrom(sz, i);
      SizesTail(rest);
      RowUnfolds(p, rest, remainder_size);
      SumAtLeast(rest[1..]);
      ghost var C1, m1 := h.C, h.mem;
      WriteInside(old(h.mem), h.mem, x + SIZE, x + total, p + SIZE, size + 1);
      OddHead(h.mem, x, p, size);
      if sound { OpenCutWithin(h, p, size, m0); }
      FirstPart(h, p, size, sound);
      if sound {
        OpenLive(h, p + size);
        RowStep(Live(C1), p, rest, remainder_size);
        AllocatedSame(h.C, h.C);
        UntouchedThen(h.C, h.C, m0, m1, h.mem);
      }
      elems := elems + [p + 8];
      remainder_size := remainder_size - size;
      p := p + size;
      i := i + 1;
    }
    assert sz[i..] == [sz[i]];
    SizesFrom(sz, i);
    OneAddress(p, sz[i]);
    ghost var m1 := h.mem;
    WriteInside(old(h.mem), h.mem, x + SIZE, x + total, p + SIZE, remainder_size + 1);
    OddHead(h.mem, x, p, remainder_size);
    if sound {
      OpenLive(h, p);
      RowEnd(Live(h.C), p, sz[i..], remainder_size);
      AllocatedSame(h.C, h.C);
    }
    LastPart(h, p, remainder_size, sound);
    if sound { UntouchedThen(h.C, h.C, m0, m1, h.mem); }
    elems := elems + [p + 8];
  }

  lemma SizesFrom(sz: seq<int>, i: int)
    requires Sizes(sz) && 0 <= i < |sz|
    ensures Sizes(sz[i..]) && GoodSize(sz[i])
  {}

  lemma OneAddress(p: int, size: int)
    ensures Addresses(p, [size]) == [p + 8] && Sum([size]) == size
  {
    assert Addresses(p + size, []) == [] && Sum([]) == 0;
    assert [size][1..] == [];
  }

  lemma OpenLive(h: Heap, x: int)
    requires Opened(h, x)
    ensures x in h.C && x in Live(h.C) && Live(h.C)[x] == h.C[x].size
  {}

  // ---- The sizes that iALLOc works with

  ghost predicate Listing(sizes: seq<int>, n: nat, same: bool) {
    (if same then n > 0 ==> |sizes| >= 1 else |sizes| >= n) && forall i | 0 <= i < |sizes| :: 0 <= sizes[i] < WORD
  }

  // request2size without the check for requests that are too large, in 32-bit arithmetic
  function Unchecked(req: int): (r: int)
    requires 0 <= req < WORD
    ensures 0 <= r < WORD
    ensures Request2Size(req) < WORD ==> r == Request2Size(req)
  {
    var padded := (req + SIZE + 7) % WORD;
    if padded < MINSIZE then MINSIZE else padded / 8 * 8
  }

  // The size of chunk for each element; with `same` the first size is that of all.
  function PieceSizes(sizes: seq<int>, n: nat, same: bool): (sz: seq<int>)
    requires Listing(sizes, n, same)
    ensures |sz| == n
  {
    seq(n, i requires 0 <= i < n => Request2Size(if same then sizes[0] else sizes[i]))
  }

  lemma PiecesGood(sizes: seq<int>, n: nat, same: bool)
    requires Listing(sizes, n, same)
    ensures Sizes(PieceSizes(sizes, n, same))
  {
    forall i | 0 <= i < n ensures GoodSize(PieceSizes(sizes, n, same)[i]) {
      var b := if same then sizes[0] else sizes[i];
      assert b >= 0;
    }
  }

  lemma {:induction false} SumEqual(sz: seq<int>, e: int)
    requires forall i | 0 <= i < |sz| :: sz[i] == e
    ensures Sum(sz) == |sz| * e
  {
    if sz != [] { SumEqual(sz[1..], e); }
  }

  lemma {:induction false} SumPrefix(sz: seq<int>, i: nat)
    requires Sizes(sz) && i < |sz|
    ensures Sum(sz[..i + 1]) == Sum(sz[..i]) + sz[i] && 0 <= Sum(sz[..i]) && Sum(sz[..i + 1]) <= Sum(sz)
    decreases i
  {
    SumAtLeast(sz[1..]);
    if i > 0 {
      assert sz[..i + 1][1..] == sz[1..][..i] && sz[..i][1..] == sz[1..][..i - 1];
      SumPrefix(sz[1..], i - 1);
    } else {
      assert sz[..1] == [sz[0]];
    }
  }

  lemma SumNone(sz: seq<int>)
    ensures Sum(sz[..0]) == 0
  {}

  lemma PieceBelow(sz: seq<int>, i: nat)
    requires Sizes(sz) && i < |sz|
    ensures sz[i] <= Sum(sz)
  {
    SumPrefix(sz, i);
  }

  // "compute total element size", in 32-bit arithmetic
  method ContentsSize(sizes: seq<int>, n: nat, same: bool) returns (c: int)
    requires Listing(sizes, n, same) && n > 0
    ensures 0 <= c < WORD && (Sum(PieceSizes(sizes, n, same)) < WORD ==> c == Sum(PieceSizes(sizes, n, same)))
  {
    ghost var sz := PieceSizes(sizes, n, same);
    PiecesGood(sizes, n, same);
    hide Request2Size, Unchecked, Sum, Sizes;
    if same {
      var element_size := Unchecked(sizes[0]);
      PieceBelow(sz, 0);
      SumEqual(sz, Request2Size(sizes[0]));
      SumAtLeast(sz);
      hide PieceSizes;
      c := n * element_size % WORD;
    } else {
      assert Sum(sz[..0]) == 0 by { SumNone(sz); }
      c := 0;
      var i := 0;
      while i < n
        invariant 0 <= i <= n && 0 <= c < WORD && (Sum(sz) < WORD ==> c == Sum(sz[..i]))
      {
        SumPrefix(sz, i);
        PieceBelow(sz, i);
        c := (c + Unchecked(sizes[i])) % WORD;
        i := i + 1;
      }
      assert sz[..n] == sz;
    }
  }

  // ---- iALLOc

  // Block c is new and holds a piece of size s.
  ghost predicate Given(L0: map<int, int>, L: map<int, int>, c: int, s: int) {
    c !in L0 && c in L && s <= L[c]
  }

  // The live blocks L are those of L0, the elements, one behind the other, and the array of their
  // addresses, if it was asked for.
  ghost predicate Divided(L0: map<int, int>, L: map<int, int>, elems: seq<int>, sz: seq<int>, marray: int) {
    && |elems| == |sz|
    && (forall i | 0 <= i < |elems| :: Given(L0, L, elems[i] - 8, sz[i]))
    && (forall i, j | 0 <= i < j < |elems| :: elems[i] + sz[i] <= elems[j])
    && (forall b | b in L0 :: b in L && L[b] == L0[b])
    && (forall b | b in L :: b in L0 || b + 8 in elems || (marray != 0 && b + 8 == marray))
    && (marray != 0 ==> Given(L0, L, marray - 8, 4 * |elems| + SIZE) && marray !in elems)
  }

  // No block of L0 begins between x and x + s.
  ghost predicate NoneInside(L0: map<int, int>, x: int, s: int) {
    forall b | b in L0 :: b < x || x + s <= b
  }

  lemma BlocksOutside(av: int, base: int, top: int, end: int, C: Chunks, L0: map<int, int>, x: int)
    requires PlaceOk(av, base, top, end, C) && x in Live(C) && x !in L0 && forall b | b in L0 :: b in Live(C)
    ensures NoneInside(L0, x, Live(C)[x])
  {}

  lemma RowIsNew(L0: map<int, int>, x: int, sz: seq<int>, total: int, s: int, b: int)
    requires Sizes(sz) && Sum(sz) <= total <= s && NoneInside(L0, x, s) && b in Row(x, sz, total)
    ensures b + 8 in Addresses(x, sz) && b !in L0
  {
    hide Row, Addresses, Sum, Sizes;
    RowOnly(x, sz, total, b);
    InRow(x, sz, total, b);
  }

  lemma RowGiven(L0: map<int, int>, x: int, sz: seq<int>, total: int, s: int, i: int)
    requires Sizes(sz) && Sum(sz) <= total <= s && NoneInside(L0, x, s) && 0 <= i < |sz|
    ensures Given(L0, L0 + Row(x, sz, total), Addresses(x, sz)[i] - 8, sz[i])
  {
    hide Row, Addresses, Sum, Sizes, NoneInside;
    RowAt(x, sz, total, i);
    RowIsNew(L0, x, sz, total, s, Addresses(x, sz)[i] - 8);
  }

  lemma RowDivided(L0: map<int, int>, x: int, sz: seq<int>, total: int, s: int)
    requires Sizes(sz) && sz != [] && Sum(sz) <= total <= s && NoneInside(L0, x, s)
    ensures Divided(L0, L0 + Row(x, sz, total), Addresses(x, sz), sz, 0)
  {
    hide Row, Addresses, Sum, Sizes, NoneInside, Given;
    var elems := Addresses(x, sz);
    forall i | 0 <= i < |elems| ensures Given(L0, L0 + Row(x, sz, total), elems[i] - 8, sz[i]) { RowGiven(L0, x, sz, total, s, i); }
    forall i, j | 0 <= i < j < |elems| ensures elems[i] + sz[i] <= elems[j] { RowOrder(x, sz, total, i, j); }
    forall b | b in Row(x, sz, total) ensures b + 8 in elems && b !in L0 { RowIsNew(L0, x, sz, total, s, b); }
  }

  lemma AddArray(L0: map<int, int>, L: map<int, int>, elems: seq<int>, sz: seq<int>, y: int, t: int)
    requires Divided(L0, L, elems, sz, 0) && y !in L && y + 8 !in elems && y + 8 != 0 && 4 * |elems| + SIZE <= t
    ensures Divided(L0, L[y := t], elems, sz, y + 8)
  {
    var L' := L[y := t];
    assert y !in L0;
    forall i | 0 <= i < |elems| ensures Given(L0, L', elems[i] - 8, sz[i]) {
      assert Given(L0, L, elems[i] - 8, sz[i]);
    }
    assert forall b | b in L0 :: b in L' && L'[b] == L0[b];
    assert forall b | b in L' :: b in L0 || b + 8 in elems || b + 8 == y + 8;
    assert Given(L0, L', y + 8 - 8, 4 * |elems| + SIZE);
  }

  lemma RowEnds(x: int, sz: seq<int>, total: int)
    requires Sizes(sz) && Sum(sz) <= total
    ensures x + total !in Row(x, sz, total) && x + total + 8 !in Addresses(x, sz)
  {
    if x + total in Row(x, sz, total) { InRow(x, sz, total, x + total); }
    if x + total + 8 in Addresses(x, sz) {
      var i :| 0 <= i < |sz| && Addresses(x, sz)[i] == x + total + 8;
      RowAt(x, sz, total, i);
      SumAtLeast(sz);
    }
  }

  // With the array of addresses behind the row.
  lemma ArrayDivided(L0: map<int, int>, x: int, sz: seq<int>, total: int, s: int)
    requires Sizes(sz) && sz != [] && Sum(sz) <= total && total + 4 * |sz| + SIZE <= s && NoneInside(L0, x, s) && x > 0
    ensures Divided(L0, L0[x + total := s - total] + Row(x, sz, total), Addresses(x, sz), sz, x + total + 8)
  {
    hide Row, Addresses, Divided, Sum;
    SumAtLeast(sz);
    RowDivided(L0, x, sz, total, s);
    RowEnds(x, sz, total);
    assert x + total !in L0;
    AddArray(L0, L0 + Row(x, sz, total), Addresses(x, sz), sz, x + total, s - total);
    assert L0[x + total := s - total] + Row(x, sz, total) == (L0 + Row(x, sz, total))[x + total := s - total];
  }

  lemma InRow(x: int, sz: seq<int>, total: int, b: int)
    requires Sizes(sz) && Sum(sz) <= total && b in Row(x, sz, total)
    ensures x <= b < x + total
  {
    hide Row, Addresses, Sum, Sizes;
    RowOnly(x, sz, total, b);
    var i :| 0 <= i < |sz| && Addresses(x, sz)[i] == b + 8;
    RowAt(x, sz, total, i);
    assert sz[i] >= MINSIZE by { SizesAt(sz, i); }
  }

  lemma SizesAt(sz: seq<int>, i: int)
    requires Sizes(sz) && 0 <= i < |sz|
    ensures sz[i] >= MINSIZE
  {
    assert GoodSize(sz[i]);
  }

  // ---- Clearing the elements

  ghost predicate AllZero(s: seq<int>) {
    forall k | 0 <= k < |s| :: s[k] == 0
  }

  // Every word of the elements reads zero.
  ghost predicate Blank(m: Mem, L: map<int, int>, elems: seq<int>) {
    forall i | 0 <= i < |elems| ::
      elems[i] - 8 in L && L[elems[i] - 8] >= MINSIZE && AllZero(Contents(m, elems[i], L[elems[i] - 8] / 4 - 1))
  }

  lemma ZeroedPiece(m: Mem, p: int, words: int, q: int, n: nat)
    requires p <= q && (q - p) % 4 == 0 && q + 4 * n <= p + 4 * words
    ensures AllZero(Contents(Zeroed(m, p, 0, words), q, n))
  {
    var m' := Zeroed(m, p, 0, words);
    forall k | 0 <= k < n ensures Contents(m', q, n)[k] == 0 {
      ZeroedReads(m, p, 0, words, (q - p) / 4 + k);
    }
  }

  lemma BlankPiece(C: Chunks, m1: Mem, m: Mem, x: int, c: int, size: int, words: int)
    requires c in Live(C) && Live(C)[c] == size >= MINSIZE && Aligned(x) && Aligned(c)
    requires x <= c && c + size - SIZE <= x + 4 * words && Untouched(C, Zeroed(m1, x + 8, 0, words), m)
    ensures AllZero(Contents(m, c + 8, size / 4 - 1))
  {
    hide Untouched, Zeroed, Contents, AllZero, Live;
    var n := size / 4 - 1;
    ContentsKept(C, Zeroed(m1, x + 8, 0, words), m, c, n);
    Multiple4(x, c);
    ZeroedPiece(m1, x + 8, words, c + 8, n);
  }

  lemma Multiple4(x: int, c: int)
    requires Aligned(x) && Aligned(c)
    ensures (c + 8 - (x + 8)) % 4 == 0
  {
    AlignedSum(c, x);
    assert c + 8 - (x + 8) == c - x;
  }

  lemma BlankRow(C: Chunks, B: map<int, int>, m1: Mem, m: Mem, x: int, sz: seq<int>, total: int, words: int)
    requires Sizes(sz) && Sum(sz) <= total && total - 4 <= 4 * words && Aligned(x)
    requires Live(C) == B + Row(x, sz, total) && Untouched(C, Zeroed(m1, x + 8, 0, words), m)
    ensures Blank(m, Live(C), Addresses(x, sz))
  {
    hide Row, Addresses, Sum, Untouched, Sizes, AllZero, Contents, Zeroed, Aligned;
    var elems := Addresses(x, sz);
    forall i | 0 <= i < |elems|
      ensures elems[i] - 8 in Live(C) && Live(C)[elems[i] - 8] >= MINSIZE
      ensures AllZero(Contents(m, elems[i], Live(C)[elems[i] - 8] / 4 - 1))
    {
      RowAt(x, sz, total, i);
      RowAligned(x, sz, i);
      SizesAt(sz, i);
      var c := elems[i] - 8;
      assert Live(C)[c] == Row(x, sz, total)[c];
      BlankPiece(C, m1, m, x, c, Live(C)[c], words);
    }
  }

  // ---- The array of addresses

  method StoreWord(h: Heap, x: int, w: int, v: int, ghost sound: bool)
    requires sound ==> h.Valid() && x in Live(h.C) && x + 8 <= w < x + Live(h.C)[x] + SIZE && w % 4 == 0
    modifies h`mem
    ensures h.mem == old(h.mem)[w := v]
    ensures sound ==> h.Valid() && OthersUntouched(h.C, x, old(h.mem), h.mem)
  {
    hide PlaceOk, TagsOk, TopOk, RingsOk, MembersOk, SortOk, MapOk, ChainsOk, FastOk, Settled;
    if sound { ClientWrite(h.av, h.base, h.top, h.brk, h.C, h.mem, h.lists, h.fastbins, h.fast, x, w, v); }
    h.mem := h.mem[w := v];
  }

  method StorePointers(h: Heap, marray: int, elems: seq<int>, ghost sound: bool)
    requires sound ==> h.Valid() && marray - 8 in Live(h.C) && Aligned(marray) && 4 * |elems| + SIZE <= Live(h.C)[marray - 8]
    modifies h`mem
    ensures Contents(h.mem, marray, |elems|) == elems && OnlyInside(old(h.mem), h.mem, marray, marray + 4 * |elems|)
    ensures sound ==> h.Valid() && OthersUntouched(h.C, marray - 8, old(h.mem), h.mem)
  {
    hide Heap.Valid, Live, OthersUntouched, Aligned;
    ghost var m0 := h.mem;
    NothingWritten(h.C, marray - 8, h.mem);
    var i := 0;
    while i < |elems|
      invariant 0 <= i <= |elems| && Contents(h.mem, marray, i) == elems[..i]
      invariant OnlyInside(m0, h.mem, marray, marray + 4 * |elems|)
      invariant sound ==> h.Valid() && OthersUntouched(h.C, marray - 8, m0, h.mem)
    {
      ghost var m1 := h.mem;
      if sound { WordAligned(marray, i); }
      StoreWord(h, marray - 8, marray + 4 * i, elems[i], sound);
      if sound { OthersTwice(h.C, marray - 8, m0, m1, h.mem); }
      ContentsPut(m1, marray, i, elems[i]);
      ContentsMore(h.mem, marray, i);
      assert elems[..i + 1] == elems[..i] + [elems[i]];
      i := i + 1;
    }
  }

  // ---- Putting it together

  // The space for the array of addresses, if there is to be one.
  function ArraySize(n: int, own: bool): int {
    if own then 0 else Request2Size(4 * n)
  }

  lemma ArraySizeFits(n: int, own: bool)
    requires n > 0
    ensures own ==> ArraySize(n, own) == 0
    ensures !own ==> GoodSize(ArraySize(n, own)) && 4 * n + SIZE <= ArraySize(n, own)
  {}

  // "If not provided, allocate the pointer array as final part of chunk", and the elements.
  method DivideRow(h: Heap, x: int, s: int, sz: seq<int>, own: bool, ghost L0: map<int, int>, ghost m2: Mem, ghost sound: bool)
    returns (elems: seq<int>, marray: int, ghost B: map<int, int>)
    requires sz != [] && Sizes(sz) && Sum(sz) + ArraySize(|sz|, own) <= s && 0 < x && Aligned(x)
    requires x !in L0 && NoneInside(L0, x, s) && Aligned(s)
    requires sound ==> Opened(h, x) && x in h.C && h.C[x].size == s && Live(h.C) == L0[x := s] && Untouched(h.C, m2, h.mem)
    modifies h`mem, h`C
    ensures elems == Addresses(x, sz) && marray == if own then 0 else x + Sum(sz) + 8
    ensures OnlyInside(old(h.mem), h.mem, x + SIZE, x + s + SIZE) && Rd(h.mem, x + SIZE) % 2 == 1
    ensures !sound ==> h.C == old(h.C)
    ensures sound ==> h.Valid() && Divided(L0, Live(h.C), elems, sz, marray) && Untouched(h.C, m2, h.mem)
    ensures sound ==> Live(h.C) == B + Row(x, sz, if own then s else Sum(sz))
  {
    hide Heap.Valid, Opened, Untouched, Live, Row, Addresses, Divided, Request2Size, NoneInside, Cut, Sum, OnlyInside;
    SumAtLeast(sz);
    ArraySizeFits(|sz|, own);
    if own {
      elems := SplitOut(h, x, sz, s, sound, m2);
      marray, B := 0, L0;
      InsideSame(old(h.mem), x + SIZE, x + s + SIZE);
      InsideThen(old(h.mem), old(h.mem), h.mem, x + SIZE, x + s + SIZE, x + SIZE, x + s);
      if sound {
        DropAdded(L0, x, s);
        RowDivided(L0, x, sz, s, s);
      }
      return;
    }
    var contents_size := Sum(sz);
    ghost var m3 := h.mem;
    if sound { OpenCutWithin(h, x, contents_size, m2); }
    TailPart(h, x, s, contents_size, sound);
    if sound {
      AllocatedSame(h.C, h.C);
      UntouchedThen(h.C, h.C, m2, m3, h.mem);
      WithoutFront(L0, x, s, contents_size);
    }
    marray := x + contents_size + 8;
    B := L0[x + contents_size := s - contents_size];
    InsideSame(m3, x + SIZE, x + s + SIZE);
    WriteInside(m3, m3, x + SIZE, x + s + SIZE, x + contents_size + SIZE, s - contents_size + 1);
    ghost var m4 := h.mem;
    elems := SplitOut(h, x, sz, contents_size, sound, m2);
    InsideThen(m3, m4, h.mem, x + SIZE, x + s + SIZE, x + SIZE, x + contents_size);
    if sound { ArrayDivided(L0, x, sz, contents_size, s); }
  }

  // MALLOC_ZERO, if the elements are to be cleared
  method ClearFront(h: Heap, x: int, s: int, words: int, zero: bool, ghost C0: Chunks, ghost m0: Mem)
    requires h.Valid() && x in Live(h.C) && x !in Live(C0) && Live(h.C) == Live(C0)[x := s] && Aligned(x)
    requires 0 <= words && 4 * words + SIZE <= s && Untouched(C0, m0, h.mem)
    modifies h`mem
    ensures h.Valid() && Untouched(C0, m0, h.mem) && OnlyInside(old(h.mem), h.mem, x + SIZE, x + s + SIZE)
    ensures h.mem == if zero then Zeroed(old(h.mem), x + 8, 0, words) else old(h.mem)
  {
    hide Heap.Valid, Untouched, OthersUntouched, Live, OnlyInside, Zeroed;
    ghost var m1 := h.mem;
    InsideSame(m1, x + SIZE, x + s + SIZE);
    if zero {
      AlignedSum(x, 8);
      hide Aligned;
      Clear(h, x + 8, 0, words);
      ZeroedInside(m1, x + 8, words);
      InsideThen(m1, m1, h.mem, x + SIZE, x + s + SIZE, x + 8, x + 8 + 4 * words);
      OthersAreOld(C0, h.C, x, m0, m1, h.mem);
    }
  }

  // The chunk is there: clear it if that was asked for, and divide it. `own` says that the
  // caller brought an array; C0 and m0 are the heap before the call.
  method Divide(h: Heap, x: int, s: int, sz: seq<int>, own: bool, zero: bool, ghost C0: Chunks, ghost m0: Mem, ghost sound: bool)
    returns (elems: seq<int>, marray: int)
    requires h.Valid() && sz != [] && Sizes(sz) && x in Live(h.C) && x !in Live(C0) && Live(h.C) == Live(C0)[x := s]
    requires Sum(sz) + ArraySize(|sz|, own) <= s && (sound ==> FrontInUse(h.C, x)) && Untouched(C0, m0, h.mem)
    modifies h`mem, h`C
    ensures elems == Addresses(x, sz) && marray == if own then 0 else x + Sum(sz) + 8
    ensures OnlyInside(old(h.mem), h.mem, x + SIZE, x + s + SIZE) && Rd(h.mem, x + SIZE) % 2 == 1
    ensures !sound ==> h.C == old(h.C)
    ensures sound ==> h.Valid() && Divided(Live(C0), Live(h.C), elems, sz, marray) && Untouched(C0, m0, h.mem)
    ensures sound && zero ==> Blank(h.mem, Live(h.C), elems)
  {
    hide Heap.Valid, Heap.Ready, Opened, Untouched, Live, Row, Addresses, Divided, Blank, FrontInUse;
    hide Request2Size, Sum, NoneInside, OnlyInside, Zeroed;
    ghost var m1 := h.mem;
    BlockFacts(h, x);
    SumAtLeast(sz);
    ArraySizeFits(|sz|, own);
    BlocksApart(h, Live(C0), x);
    var words := (s - SIZE - ArraySize(|sz|, own)) / 4;
    WordsFit(s, if own then 0 else ArraySize(|sz|, own));
    hide ArraySize, Aligned;
    ClearFront(h, x, s, words, zero, C0, m0);
    ghost var m2 := h.mem;
    UntouchedSame(h.C, m2);
    if sound { OpenBlock(h, x); OpenLive(h, x); }
    ghost var B;
    elems, marray, B := DivideRow(h, x, s, sz, own, Live(C0), m2, sound);
    InsideThen(m1, m2, h.mem, x + SIZE, x + s + SIZE, x + SIZE, x + s + SIZE);
    if sound {
      if zero { BlankRow(h.C, B, m1, h.mem, x, sz, if own then s else Sum(sz), words); }
      DividedKeeps(C0, h.C, elems, sz, marray);
      UntouchedThen(C0, h.C, m0, m2, h.mem);
    }
  }

  lemma WordsFit(s: int, array_size: int)
    requires Aligned(s) && Aligned(array_size) && array_size + MINSIZE <= s
    ensures var words := (s - SIZE - array_size) / 4; 0 <= words && 4 * words == s - SIZE - array_size
  {}

  // The same with the addresses stored in the array, if there is one.
  method Carve(h: Heap, x: int, s: int, sz: seq<int>, own: bool, zero: bool, ghost C0: Chunks, ghost m0: Mem, ghost sound: bool)
    returns (elems: seq<int>, marray: int)
    requires h.Valid() && sz != [] && Sizes(sz) && x in Live(h.C) && x !in Live(C0) && Live(h.C) == Live(C0)[x := s]
    requires Sum(sz) + ArraySize(|sz|, own) <= s && (sound ==> FrontInUse(h.C, x)) && Untouched(C0, m0, h.mem)
    modifies h`mem, h`C
    ensures |elems| == |sz| && (marray == 0 <==> own) && (!own ==> Contents(h.mem, marray, |elems|) == elems)
    ensures OnlyInside(old(h.mem), h.mem, x + SIZE, x + s + SIZE) && Rd(h.mem, x + SIZE) % 2 == 1
    ensures !sound ==> h.C == old(h.C)
    ensures sound ==> h.Valid() && Divided(Live(C0), Live(h.C), elems, sz, marray) && Untouched(C0, m0, h.mem)
    ensures sound && zero ==> Blank(h.mem, Live(h.C), elems)
  {
    hide Heap.Valid, Heap.Ready, Untouched, OthersUntouched, Live, Addresses, Divided, Blank, FrontInUse, Sum, OnlyInside;
    hide Aligned;
    ghost var m1 := h.mem;
    BlockFacts(h, x);
    SumAtLeast(sz);
    ArraySizeFits(|sz|, own);
    hide ArraySize, Request2Size;
    elems, marray := Divide(h, x, s, sz, own, zero, C0, m0, sound);
    if !own {
      ghost var m4 := h.mem;
      if sound { DividedKeeps(C0, h.C, elems, sz, marray); }
      ArrayPlace(x, Sum(sz));
      StorePointers(h, marray, elems, sound);
      InsideThen(m1, m4, h.mem, x + SIZE, x + s + SIZE, marray, marray + 4 * |elems|);
      InsideReads(m4, h.mem, marray, marray + 4 * |elems|, x + SIZE);
      if sound {
        OldKept(C0, h.C, marray - 8, m0, m4, h.mem);
        if zero { BlankKept(h.C, marray, m4, h.mem, elems); }
      }
    }
  }

  lemma ArrayPlace(x: int, c: int)
    requires Aligned(x) && Aligned(c)
    ensures Aligned(x + c + 8)
  {}

  lemma InsideReads(m: Mem, m': Mem, lo: int, hi: int, w: int)
    requires OnlyInside(m, m', lo, hi) && !(lo <= w < hi)
    ensures Rd(m', w) == Rd(m, w)
  {}

  lemma WithoutFront(L0: map<int, int>, x: int, s: int, c: int)
    requires x !in L0 && c != 0
    ensures L0[x := s][x := c][x + c := s - c] - {x} == L0[x + c := s - c]
  {}

  lemma BlocksApart(h: Heap, L0: map<int, int>, x: int)
    requires h.Valid() && x in Live(h.C) && x !in L0 && forall b | b in L0 :: b in Live(h.C)
    ensures NoneInside(L0, x, Live(h.C)[x])
  {
    BlocksOutside(h.av, h.base, h.top, h.brk, h.C, L0, x);
  }

  // "Ensure initialization"
  method Initialize(h: Heap)
    requires h.Valid()
    modifies h
    ensures h.Valid() && Live(h.C) == Live(old(h.C)) && Untouched(old(h.C), old(h.mem), h.mem) && h.brk == old(h.brk)
    ensures h.C == old(h.C) && h.anyChunks == old(h.anyChunks)
    ensures old(h.anyChunks) ==> h.fastbins == old(h.fastbins) && h.mem == old(h.mem)
  {
    UntouchedSame(h.C, h.mem);
    if h.maxFast == 0 {
      h.InitState();
      NoBlocks(old(h.mem), h.mem);
    }
  }

  lemma OldKept(C0: Chunks, C: Chunks, y: int, m: Mem, m1: Mem, m2: Mem)
    requires Untouched(C0, m, m1) && OthersUntouched(C, y, m1, m2) && y !in Live(C0) && Keeps(C0, C)
    ensures Untouched(C0, m, m2)
  {
    forall a, w | a in C0 && C0[a].kind.Used? && a + 8 <= w < a + C0[a].size + SIZE
      ensures Rd(m2, w) == Rd(m, w)
    {
      assert a in Live(C0) && a in Live(C);
    }
  }

  lemma DividedKeeps(C0: Chunks, C: Chunks, elems: seq<int>, sz: seq<int>, marray: int)
    requires Divided(Live(C0), Live(C), elems, sz, marray)
    ensures Keeps(C0, C) && (marray != 0 ==> marray - 8 !in Live(C0) && marray - 8 in Live(C))
    ensures marray != 0 ==> 4 * |elems| + SIZE <= Live(C)[marray - 8] && marray !in elems && |elems| == |sz|
  {}

  lemma BlankKept(C: Chunks, y: int, m: Mem, m': Mem, elems: seq<int>)
    requires Blank(m, Live(C), elems) && OthersUntouched(C, y - 8, m, m') && y !in elems
    ensures Blank(m', Live(C), elems)
  {
    forall i | 0 <= i < |elems| ensures Contents(m', elems[i], Live(C)[elems[i] - 8] / 4 - 1) == Contents(m, elems[i], Live(C)[elems[i] - 8] / 4 - 1) {
      assert elems[i] in elems;
      OtherContents(C, m, m', elems[i] - 8, y - 8, Live(C)[elems[i] - 8] / 4 - 1);
    }
  }

  lemma TotalFits(sz: seq<int>, own: bool)
    requires sz != [] && Sizes(sz)
    ensures var total := Sum(sz) + ArraySize(|sz|, own); GoodSize(total) && Request2Size(total - 7) == total
  {
    hide Sum;
    SumAtLeast(sz);
    ArraySizeFits(|sz|, own);
    hide ArraySize;
    RetrySize(Sum(sz) + ArraySize(|sz|, own));
  }

  // How a call of iALLOc can end. Short: the total size wrapped round, and the chunk at m cannot
  // hold the elements; what the source does next writes behind it.
  datatype Bulk = NoSpace | Blocks(marray: int, elems: seq<int>) | Short(m: int)

  // The fastbin for chunks of s bytes has one, and the flag of that chunk is clear.
  predicate ClearHead(any: bool, fastbins: seq<int>, m: Mem, s: int) {
    && any && s <= 72 && 0 <= s / 8 - 2 < |fastbins|
    && fastbins[s / 8 - 2] != 0 && !PrevInUse(Rd(m, fastbins[s / 8 - 2] + SIZE))
  }

  lemma HeadFlag(h: Heap, s: int)
    requires h.Valid() && GoodSize(s)
    ensures h.HitsFast(h.anyChunks, h.fast, s) ==>
              var j := s / 8 - 2; var x := h.fast[j][0];
              x in h.C && (ClearHead(h.anyChunks, h.fastbins, h.mem, s) <==> !h.C[x].prevInUse)
    ensures !h.HitsFast(h.anyChunks, h.fast, s) ==> !ClearHead(h.anyChunks, h.fastbins, h.mem, s)
  {
    hide PlaceOk, TagsOk, TopOk, RingsOk, MembersOk, SortOk, MapOk, ChainsOk, FastOk, Settled;
    if h.Ready() && h.anyChunks && s <= 72 {
      var j := s / 8 - 2;
      EmptyChain(h.mem, h.fastbins, h.fast, j);
      if h.fastbins[j] != 0 {
        FastPop(h.av, h.base, h.top, h.brk, h.C, h.mem, h.fastbins, h.fast, j);
        HeadReads(h.av, h.base, h.top, h.brk, h.C, h.mem, {}, h.fastbins[j]);
      }
    }
  }

  lemma HeadTaken(C0: Chunks, C: Chunks, x: int)
    requires C == UseAll(C0, [x]) && x in C0
    ensures FrontInUse(C, x) == C0[x].prevInUse && (x in C ==> C[x].kind.Used?)
  {}

  // The whole heap of a client is unreadable once the flag of a block behind a free chunk is set.
  lemma MarkedHeap(h: Heap, x: int, m': Mem)
    requires h.Valid() && x in Live(h.C) && !FrontInUse(h.C, x)
    requires OnlyInside(h.mem, m', x + SIZE, x + Live(h.C)[x] + SIZE) && Rd(m', x + SIZE) % 2 == 1
    ensures Unreadable(h.av, m')
  {
    hide PlaceOk, TagsOk, TopOk, RingsOk, MembersOk, SortOk, MapOk, ChainsOk, FastOk, Settled, Unreadable, OnlyInside;
    MarkedBehindFree(h.av, h.base, h.top, h.brk, h.C, h.mem, m', h.lists, x);
  }

  // The part of iALLOc for at least one element and a total that is a 32-bit number. `front`: the
  // chunk before the space that mALLOc found is in use, as iALLOc takes for granted.
  method TakeAndDivide(h: Heap, sz: seq<int>, own: bool, zero: bool, size: int) returns (r: Bulk, ghost front: bool)
    requires h.Valid() && sz != [] && Sizes(sz) && size == Sum(sz) + ArraySize(|sz|, own) - 7 && size + 7 < WORD
    modifies h
    ensures !r.Short? && (front <==> !old(ClearHead(h.anyChunks, h.fastbins, h.mem, size + 7)))
    ensures r == NoSpace ==> h.Valid() && Live(h.C) == Live(old(h.C)) && Untouched(old(h.C), old(h.mem), h.mem)
    ensures r == NoSpace ==> OutOfRange(size) || h.Exhausted(size + 7, old(h.brk))
    ensures r.Blocks? ==> |r.elems| == |sz| && (r.marray == 0 <==> own) && (!own ==> Contents(h.mem, r.marray, |sz|) == r.elems)
    ensures r.Blocks? && front ==>
              && h.Valid() && Divided(Live(old(h.C)), Live(h.C), r.elems, sz, r.marray)
              && Untouched(old(h.C), old(h.mem), h.mem) && (zero ==> Blank(h.mem, Live(h.C), r.elems))
    ensures r.Blocks? && !front ==> Unreadable(h.av, h.mem)
    ensures !front ==> r.Blocks?
  {
    hide Heap.Valid, Heap.Ready, Untouched, OthersUntouched, Live, Divided, Blank, FrontInUse, Sum, ArraySize;
    hide ClearHead, OnlyInside, Unreadable, Heap.Exhausted, UseAll, Heap.Pinned, Heap.Remembered, Heap.LastReady, Heap.Steady, LastOne, SmallestFit, NoFit;
    ghost var C0, m0 := h.C, h.mem;
    TotalFits(sz, own);
    HeadFlag(h, size + 7);
    hide Request2Size;
    ghost var how, seen;
    var p;
    p, how, seen := h.MAlloc(size);
    if p == 0 { return NoSpace, true; }
    var x := p - 8;
    front := FrontInUse(h.C, x);
    if how == Fastbin { HeadTaken(C0, h.C, x); }
    AllocatedPlaced(C0, h.C, x, size + 7);
    BlockFacts(h, x);
    SumAtLeast(sz);
    ghost var m1 := h.mem;
    if !front { MarkedNext(h, x); }
    var elems, marray := Carve(h, x, ChunkSize(Rd(h.mem, x + SIZE)), sz, own, zero, C0, m0, front);
    r := Blocks(marray, elems);
  }

  // Whatever is written to the block next, once its flag is set the heap is unreadable.
  lemma MarkedNext(h: Heap, x: int)
    requires h.Valid() && x in Live(h.C) && !FrontInUse(h.C, x)
    ensures forall m' | OnlyInside(h.mem, m', x + SIZE, x + Live(h.C)[x] + SIZE) && Rd(m', x + SIZE) % 2 == 1 :: Unreadable(h.av, m')
  {
    forall m' | OnlyInside(h.mem, m', x + SIZE, x + Live(h.C)[x] + SIZE) && Rd(m', x + SIZE) % 2 == 1 ensures Unreadable(h.av, m') {
      MarkedHeap(h, x, m');
    }
  }

  // iALLOc. `same` and `zero` are its two options; `chunks` is the array of the caller, or null.
  // The elements are handed out exactly when their total size is a 32-bit number and there is
  // memory. The heap stays sound exactly when ClearHead is false before the call.
  method IAlloc(h: Heap, sizes: seq<int>, n: nat, same: bool, zero: bool, chunks: array?<int>) returns (r: Bulk)
    requires h.Valid() && n < WORD && Listing(sizes, n, same) && (chunks != null ==> n <= chunks.Length)
    modifies h, if chunks == null then {} else {chunks}
    // nothing is asked for
    ensures n == 0 && chunks != null ==> r == Blocks(0, []) && h.Valid() && Live(h.C) == Live(old(h.C))
    ensures n == 0 && chunks == null && r != NoSpace ==>
              r.Blocks? && r.elems == [] && h.Valid() && Allocated(old(h.C), h.C, r.marray - 8, MINSIZE)
    ensures r == NoSpace ==> h.Valid() && Live(h.C) == Live(old(h.C)) && Untouched(old(h.C), old(h.mem), h.mem)
    ensures n > 0 && r == NoSpace && Total(sizes, n, same, chunks != null) < WORD ==>
              OutOfRange(Total(sizes, n, same, chunks != null) - 7) || h.Exhausted(Total(sizes, n, same, chunks != null), old(h.brk))
    ensures n > 0 && r != NoSpace ==> (r.Blocks? <==> Total(sizes, n, same, chunks != null) < WORD)
    ensures r.Short? ==>
              && h.Valid() && Untouched(old(h.C), old(h.mem), h.mem) && r.m - 8 in Live(h.C)
              && Live(h.C)[r.m - 8] < Total(sizes, n, same, chunks != null)
              && Live(h.C) == Live(old(h.C))[r.m - 8 := Live(h.C)[r.m - 8]]
    // the elements
    ensures n > 0 && r.Blocks? ==>
              && |r.elems| == n && (r.marray == 0 <==> chunks != null)
              && (if chunks != null then chunks[..n] == r.elems else Contents(h.mem, r.marray, n) == r.elems)
    ensures n > 0 && r.Blocks? && !old(ClearHead(h.anyChunks, h.fastbins, h.mem, Total(sizes, n, same, chunks != null))) ==>
              && h.Valid() && Divided(Live(old(h.C)), Live(h.C), r.elems, PieceSizes(sizes, n, same), r.marray)
              && Untouched(old(h.C), old(h.mem), h.mem) && (zero ==> Blank(h.mem, Live(h.C), r.elems))
    ensures n > 0 && old(ClearHead(h.anyChunks, h.fastbins, h.mem, Total(sizes, n, same, chunks != null))) ==>
              r.Blocks? && Unreadable(h.av, h.mem)
  {
    hide Heap.Valid, Heap.Ready, Untouched, OthersUntouched, Live, Divided, Blank, PieceSizes, Sum, ArraySize, Allocated;
    hide Unreadable, ClearHead, Unchecked, Heap.Explained, Heap.Pinned, Heap.Remembered, Heap.LastReady, Heap.Steady, Heap.HitsFast, UseAll, FrontInUse;
    ghost var C0, m0, heads := h.C, h.mem, h.fastbins;
    ghost var total := Total(sizes, n, same, chunks != null);
    Initialize(h);
    NoHead(h.anyChunks, heads, m0, total);
    NoHead(h.anyChunks, h.fastbins, h.mem, total);
    ghost var mi := h.mem;
    AllocatedSame(C0, C0);
    if n == 0 {
      if chunks != null { return Blocks(0, []); }
      ghost var how, seen;
      var p;
      p, how, seen := h.MAlloc(0);
      UntouchedThen(C0, C0, m0, mi, h.mem);
      return if p == 0 then NoSpace else Blocks(p, []);
    }
    PiecesGood(sizes, n, same);
    ArraySizeFits(n, chunks != null);
    var contents_size := ContentsSize(sizes, n, same);
    var array_size := if chunks != null then 0 else Unchecked(4 * n % WORD);
    var size := (contents_size + array_size - 7) % WORD;
    var sz := PieceSizes(sizes, n, same);
    SumAtLeast(sz);
    if Sum(sz) + ArraySize(n, chunks != null) >= WORD {
      ghost var how, seen;
      var p;
      BigHead(h.anyChunks, h.fastbins, h.mem, total);
      p, how, seen := h.MAlloc(size);
      UntouchedThen(C0, C0, m0, mi, h.mem);
      if p == 0 { return NoSpace; }
      AllocatedPlaced(C0, h.C, p - 8, Request2Size(size));
      BlockFacts(h, p - 8);
      return Short(p);
    }
    ArrayUnchecked(n, chunks != null);
    ghost var front;
    r, front := TakeAndDivide(h, sz, chunks != null, zero, size);
    if r == NoSpace || front { UntouchedThen(C0, C0, m0, mi, h.mem); }
    if chunks != null && r.Blocks? {
      var i := 0;
      while i < n
        invariant 0 <= i <= n && chunks[..i] == r.elems[..i]
        modifies chunks
      {
        chunks[i] := r.elems[i];
        i := i + 1;
      }
      assert r.elems[..n] == r.elems;
    }
  }

  // The sizes of all elements, and of the array if there is to be one.
  ghost function Total(sizes: seq<int>, n: nat, same: bool, own: bool): int
    requires Listing(sizes, n, same)
  {
    Sum(PieceSizes(sizes, n, same)) + ArraySize(n, own)
  }

  lemma NoHead(any: bool, fastbins: seq<int>, m: Mem, s: int)
    ensures !any ==> !ClearHead(any, fastbins, m, s)
  {}

  lemma BigHead(any: bool, fastbins: seq<int>, m: Mem, s: int)
    requires s >= WORD
    ensures !ClearHead(any, fastbins, m, s)
  {}

  lemma ArrayUnchecked(n: nat, own: bool)
    requires 0 < n < WORD && ArraySize(n, own) < WORD
    ensures !own ==> Unchecked(4 * n % WORD) == ArraySize(n, own)
  {}

  // ---- A run in which iALLOc goes wrong

  // Before the first release every block is cut from top, above the others.
  method Fresh(h: Heap, bytes: int) returns (p: int)
    requires h.Valid() && !h.anyChunks && !h.fastChunks && 0 <= bytes <= 100 && h.brk <= 0x8_0000 && h.heapEnd == 0x10_0000
    modifies h
    ensures h.Valid() && h.Ready() && !h.anyChunks && !h.fastChunks && old(h.brk) <= h.brk <= old(h.brk) + 0x4100
    ensures p - 8 !in Live(old(h.C)) && p - 8 in Live(h.C) && Live(h.C) == Live(old(h.C))[p - 8 := Live(h.C)[p - 8]]
    ensures Request2Size(bytes) <= Live(h.C)[p - 8] < Request2Size(bytes) + MINSIZE && 8 < p && Live(h.C)[p - 8] % 8 == 0
    ensures (forall y | y in Live(old(h.C)) :: y < p - 8) && h.base <= p - 8 && (old(h.Ready()) ==> h.base == old(h.base))
  {
    hide Heap.Valid, Heap.Ready, Live, FreeSizes, Untouched, UseAll, FrontInUse;
    ghost var C0 := h.C;
    NothingFree(h);
    ghost var how, seen;
    p, how, seen := h.MAlloc(bytes);
    AllocatedPlaced(C0, h.C, p - 8, Request2Size(bytes));
    NothingFits(seen, p - 8, Request2Size(bytes));
    assert forall y | y in Live(C0) :: y in seen by { LiveInside(seen); }
    BlockFacts(h, p - 8);
    AboveBase(h, p - 8);
  }

  lemma NothingFree(h: Heap)
    requires h.Valid() && !h.anyChunks
    ensures FreeSizes(h.C) == map[]
  {
    hide PlaceOk, TagsOk, TopOk, RingsOk, MembersOk, SortOk, MapOk, ChainsOk, FastOk, Settled;
    assert forall y | y in h.C :: h.C[y].kind.Used?;
    assert FreeSizes(h.C).Keys == {};
  }

  lemma NothingFits(seen: Chunks, x: int, nb: int)
    requires FreeSizes(seen) == map[]
    ensures !SmallestFit(seen, x, nb) && forall rem :: !LastOne(seen, rem, x, nb)
  {
    forall rem ensures !LastOne(seen, rem, x, nb) {
      assert x in seen && seen[x].kind == Free(1) ==> x in FreeSizes(seen);
    }
  }

  lemma LiveInside(C: Chunks)
    ensures forall y | y in Live(C) :: y in C
  {}

  lemma AboveBase(h: Heap, x: int)
    requires h.Ready() && x in Live(h.C)
    ensures h.base <= x
  {
    hide TagsOk, TopOk, RingsOk, MembersOk, SortOk, MapOk, ChainsOk, FastOk, Settled;
  }

  // A chunk in a fastbin, the only one there, behind which the only live block lies and which is
  // not the first chunk: the one before it must be free.
  lemma BehindFreed(h: Heap, x: int, c: int, j: int)
    requires h.Ready() && 0 <= j < NFASTBINS && |h.fast| == NFASTBINS && h.base < x < c
    requires forall i | 0 <= i < NFASTBINS :: h.fast[i] == if i == j then [x] else []
    requires forall y | y in Live(h.C) :: y == c
    ensures x in h.C && h.C[x].kind == Fast(j) && !h.C[x].prevInUse
  {
    hide TagsOk, TopOk, RingsOk, MembersOk, SortOk, MapOk, ChainsOk, Settled;
    assert x in h.fast[j] && FastMember(h.C, j, x);
    var q := PrevExists(h.C, h.base, h.top, h.base, x);
    assert q < x;
    NotUsed(h, q);
    NotFast(h, q);
  }

  lemma NotUsed(h: Heap, q: int)
    requires q in h.C && q !in Live(h.C)
    ensures !h.C[q].kind.Used?
  {}

  lemma NotFast(h: Heap, q: int)
    requires FastOk(h.C, h.fast) && q in h.C && forall i | 0 <= i < NFASTBINS :: q !in h.fast[i]
    ensures !h.C[q].kind.Fast?
  {}

  lemma FastEmpty(h: Heap)
    requires h.Valid() && h.Ready() && !h.fastChunks
    ensures |h.fast| == NFASTBINS && forall i | 0 <= i < NFASTBINS :: h.fast[i] == []
  {
    hide PlaceOk, TagsOk, TopOk, RingsOk, MembersOk, SortOk, MapOk, ChainsOk, Settled;
  }

  // From the empty heap: three requests, and the first two blocks are released again.
  method ReachClearHead() returns (h: Heap, s: int)
    ensures fresh(h) && h.Valid() && GoodSize(s) && s <= 72 && ClearHead(h.anyChunks, h.fastbins, h.mem, s)
  {
    hide Heap.Ready, Heap.Valid, Live, Untouched, ClearHead;
    h := new Heap(1024, 4096, 0x10_0000);
    var a := Fresh(h, 100);
    ghost var base := h.base;
    var b := Fresh(h, 20);
    var c := Fresh(h, 100);
    ghost var L3 := Live(h.C);
    BlockFacts(h, b - 8);
    s := ChunkSize(Rd(h.mem, b - 8 + SIZE));
    ghost var j := s / 8 - 2;
    h.MFree(a);
    BlockFacts(h, b - 8);
    FastEmpty(h);
    h.MFree(b);
    BlockFacts(h, c - 8);
    assert forall y | y in Live(h.C) :: y == c - 8;
    BehindFreed(h, b - 8, c - 8, j);
    HeadFlag(h, s);
    assert h.fast[j] == [b - 8];
  }

  // One element of s - 4 bytes then ruins the heap.
  method RuinedHeap() returns (h: Heap, r: Bulk)
    ensures r.Blocks? && |r.elems| == 1 && Unreadable(h.av, h.mem)
  {
    hide Heap.Valid, Live, Untouched, ClearHead, Unreadable, Divided, Blank, PieceSizes, Sum;
    var s;
    h, s := ReachClearHead();
    OneElement(s);
    var mine := new int[1];
    r := IAlloc(h, [s - 4], 1, true, false, mine);
  }

  lemma OneElement(s: int)
    requires GoodSize(s) && s < WORD
    ensures Listing([s - 4], 1, true) && Total([s - 4], 1, true, true) == s
  {
    assert PieceSizes([s - 4], 1, true) == [s];
    OneAddress(0, s);
  }
}
