// dlmalloc 2.7.2 as the kernel configures it: one contiguous arena grown by sbrk, no mmap.
module Malloc {
  import opened HeapRings
  import opened HeapLayout
  import opened BinIndex
  import opened HeapInvariant
  import opened HeapSteps
  import opened HeapBreak
  import opened HeapTheorems
  import opened Words

  const FAILURE := -1   // MORECORE_FAILURE

  // checked_request2size: requests close to the top of the address space are refused.
  predicate OutOfRange(bytes: int) {
    bytes >= WORD - 2 * MINSIZE
  }

  function Request2Size(bytes: int): int {
    if bytes + SIZE + 7 < MINSIZE then MINSIZE else (bytes + SIZE + 7) / 8 * 8
  }

  lemma RequestFits(bytes: int)
    requires 0 <= bytes && !OutOfRange(bytes)
    ensures GoodSize(Request2Size(bytes)) && bytes + SIZE <= Request2Size(bytes) < bytes + SIZE + MINSIZE
    ensures Request2Size(bytes) + MINSIZE < WORD
  {}

  // No smaller chunk would do; and exactly the requests of the last 32 bytes of the address space
  // are refused.
  lemma RequestLeast(bytes: int, s: int)
    requires 0 <= bytes
    ensures s % 8 == 0 && s >= 16 && s >= bytes + 4 ==> Request2Size(bytes) <= s
    ensures OutOfRange(bytes) <==> bytes >= 0xffff_ffe0
  {}

  // The part of malloc that satisfied a request.
  datatype How = Fastbin | LastRemainder | BestFit | FromTop | Failed

  // Passing nb - MALLOC_ALIGN_MASK back to malloc asks for exactly nb again.
  lemma RetrySize(nb: int)
    requires GoodSize(nb)
    ensures Request2Size(nb - 7) == nb
  {}

  class Heap {
    const av: int          // address of av_.bins[0]
    const heapStart: int   // mem_heap
    const heapEnd: int     // mem_heap_end

    var brk: int           // curptr of sbrk
    var mem: Mem           // the heap and the bin headers, word by word
    var maxFast: int       // max_fast without its two flag bits
    var anyChunks: bool    // ANYCHUNKS_BIT
    var fastChunks: bool   // FASTCHUNKS_BIT
    var fastbins: seq<int>
    var top: int
    var lastRemainder: int
    var binmap: seq<Word>

    ghost var base: int                // first chunk of the arena
    ghost var C: Chunks
    ghost var lists: seq<seq<int>>
    ghost var fast: seq<seq<int>>

    ghost predicate Consistent(raw: set<int>)
      reads this
    {
      && av + 768 <= heapStart <= base && brk <= heapEnd
      && PlaceOk(av, base, top, brk, C)
      && TagsOk(mem, C, raw) && TopOk(mem, top, brk)
      && RingsOk(mem, av, lists) && MembersOk(C, lists) && SortOk(C, lists) && MapOk(lists, binmap)
      && ChainsOk(mem, fastbins, fast) && FastOk(C, fast)
    }

    // The two flags are set when they must be, and only fastbins up to max_fast are in use.
    ghost predicate FlagsOk()
      reads this
    {
      && (forall j | 0 <= j < |fast| && fast[j] != [] :: j <= 7 && fastChunks)
      && (fastChunks ==> anyChunks)
      && (!anyChunks ==> forall a | a in C :: C[a].kind.Used?)
    }

    // The arena exists and no operation is under way.
    ghost predicate Ready()
      reads this
    {
      maxFast == 72 && Consistent({}) && Settled(C) && FlagsOk()
    }

    // The lists are set up but no memory has been obtained yet: top is the unsorted bin header.
    ghost predicate NoArena()
      reads this
    {
      && maxFast == 72 && C == map[] && top == av && Rd(mem, av + SIZE) == 0 && brk == heapStart
      && RingsOk(mem, av, lists) && MembersOk(C, lists) && SortOk(C, lists) && MapOk(lists, binmap)
      && ChainsOk(mem, fastbins, fast) && FastOk(C, fast) && !anyChunks && !fastChunks && FlagsOk()
    }

    // Memory as the loader leaves it: every word of the allocator is zero.
    ghost predicate Untried()
      reads this
    {
      && maxFast == 0 && C == map[] && mem == map[] && top == 0 && brk == heapStart
      && fastbins == seq(NFASTBINS, _ => 0) && binmap == seq(4, _ => NoBits()) && !anyChunks && !fastChunks
    }

    // mem_heap starts on an 8-byte boundary, or mem_heap_end is the end of a page.
    ghost predicate GoodBounds() {
      && 0 < av && av + 768 <= heapStart <= heapEnd < WORD - 8192
      && (Aligned(heapStart) || heapEnd % 4096 == 0)
    }

    ghost predicate Valid()
      reads this
    {
      GoodBounds() && heapStart <= brk <= heapEnd && (Untried() || NoArena() || Ready())
    }

    // Macro unlink, applied to the k-th chunk of bin i.
    method Unlink(x: int, ghost i: int, ghost k: int, ghost raw: set<int>)
      requires Consistent(raw)
      requires 1 <= i < NBINS && |lists| == NBINS && 0 <= k < |lists[i]| && lists[i][k] == x
      modifies this`mem, this`C, this`lists
      ensures Consistent(raw) && x in old(C) && old(C)[x].kind == Free(i)
      ensures C == SetKind(old(C), x, Free(0)) && lists == old(lists)[i := RemoveAt(old(lists)[i], k)]
      ensures Untouched(old(C), old(mem), mem) && (x !in raw ==> FootOk(mem, C, x))
    {
      hide PlaceOk, TagsOk, TopOk, RingsOk, MembersOk, SortOk, MapOk, ChainsOk, FastOk, NeutralChange, Untouched;
      hide FootOk;
      if x !in raw { UnlinkKeepsFoot(av, base, top, brk, C, mem, lists, i, k, raw); }
      RingsNoDup(mem, av, lists, i);
      UnlinkRings(av, base, top, brk, C, mem, lists, i, k);
      UnlinkMembers(av, C, lists, i, k);
      UnlinkSort(C, lists, i, k);
      UnlinkMap(lists, binmap, i, k);
      UnlinkNeutral(av, base, top, brk, C, mem, lists, i, k);
      UnlinkPlace(av, base, top, brk, C, x);
      UnlinkFast(C, fast, x);
      ghost var m' := Unlinked(mem, BckOf(av, lists, i, k), FwdOf(av, lists, i, k));
      NeutralTags(mem, m', C, top, brk, raw);
      NeutralChains(mem, m', C, top, fastbins, fast);
      NeutralBlocks(mem, m', C, top);
      FreeKindTags(m', C, raw, x, Free(0));

      var fwd := Rd(mem, x + FD);
      var bck := Rd(mem, x + BK);
      mem := mem[fwd + BK := bck];
      mem := mem[bck + FD := fwd];
      C := SetKind(C, x, Free(0));
      lists := lists[i := RemoveAt(lists[i], k)];
    }

    // The four assignments that place free chunk x at position k of bin i.
    method Link(x: int, bck: int, fwd: int, ghost i: int, ghost k: int, ghost raw: set<int>)
      requires Consistent(raw)
      requires 1 <= i < NBINS && |lists| == NBINS && 0 <= k <= |lists[i]| && BinMember(C, 0, x)
      requires bck == At(Hdr(av, i), lists[i], k - 1) && fwd == At(Hdr(av, i), lists[i], k)
      requires i != 1 ==> i == BinOf(C[x].size) && Fits(C, lists[i], k, x) && |binmap| == 4 && binmap[i / 32][i % 32]
      requires x in raw || FootOk(mem, C, x)
      requires CanBin(C, top, x)
      modifies this`mem, this`C, this`lists
      ensures Consistent(raw)
      ensures C == SetKind(old(C), x, Free(i)) && lists == old(lists)[i := InsertAt(old(lists)[i], k, x)]
      ensures Untouched(old(C), old(mem), mem)
    {
      hide PlaceOk, TagsOk, TopOk, RingsOk, MembersOk, SortOk, MapOk, ChainsOk, FastOk, NeutralChange, Untouched;
      hide Fits, CanBin;
      LinkRings(av, base, top, brk, C, mem, lists, i, k, x);
      LinkMembers(C, lists, i, k, x);
      LinkSort(C, lists, i, k, x);
      LinkMap(lists, binmap, i, k, x);
      LinkNeutral(av, base, top, brk, C, mem, lists, i, k, x);
      LinkPlace(av, base, top, brk, C, x, i);
      UnlistedFast(C, fast, x, Free(i));
      ghost var m' := LinkBetween(mem, x, bck, fwd);
      NeutralTags(mem, m', C, top, brk, raw);
      NeutralChains(mem, m', C, top, fastbins, fast);
      NeutralBlocks(mem, m', C, top);
      LinkKeepsFoot(av, base, top, brk, C, mem, lists, i, k, x, raw);
      FreeKindTags(m', C, raw, x, Free(i));

      mem := mem[x + BK := bck];
      mem := mem[x + FD := fwd];
      mem := mem[fwd + BK := x];
      mem := mem[bck + FD := x];
      C := SetKind(C, x, Free(i));
      lists := lists[i := InsertAt(lists[i], k, x)];
    }

    // set_inuse_bit_at_offset(x, size): free chunk x, in no list, goes to a caller.
    method SetInuse(x: int, size: int)
      requires Consistent({}) && BinMember(C, 0, x) && size == C[x].size && Next(C, x) in C
      modifies this`mem, this`C
      ensures Consistent({}) && C == Turn(old(C), x, Used)
      ensures Untouched(old(C), old(mem), mem)
    {
      hide PlaceOk, TagsOk, TopOk, RingsOk, MembersOk, SortOk, MapOk, ChainsOk, FastOk, Untouched, Turn;
      ghost var n := Next(C, x);
      HeadReads(av, base, top, brk, C, mem, {}, n);
      FlagWriteTags(av, base, top, brk, C, mem, {}, x, Used);
      TurnPlace(av, base, top, brk, C, x, Used);
      TurnKeepsLists(av, base, top, brk, C, lists, fast, x, Used);
      TagWriteKeeps(av, base, top, brk, C, mem, lists, fastbins, fast, n, n + SIZE, C[n].size + 1);

      var w := Rd(mem, x + size + SIZE);
      mem := mem[x + size + SIZE := w - w % 2 + 1];
      C := Turn(C, x, Used);
    }

    // The "Split" branch shared by the searches: chunk x, in no list, keeps nb bytes and the
    // remainder becomes the only unsorted chunk.
    method SplitVictim(x: int, nb: int, size: int) returns (remainder: int)
      requires Consistent({}) && BinMember(C, 0, x) && CanBin(C, top, x) && size == C[x].size
      requires GoodSize(nb) && nb + MINSIZE <= size && |lists| == NBINS && lists[1] == []
      modifies this`mem, this`C, this`lists
      ensures Consistent({}) && remainder == x + nb
      ensures C == SetKind(Split(old(C), x, nb), remainder, Free(1))
      ensures Untouched(old(C), old(mem), mem) && lists == old(lists)[1 := [remainder]]
      ensures Remains(C, lists, x, nb, size)
    {
      hide PlaceOk, TagsOk, TopOk, RingsOk, MembersOk, SortOk, MapOk, ChainsOk, FastOk, Untouched;
      ghost var C0, m0 := C, mem;
      remainder := x + nb;
      ghost var raw: set<int> := {x, remainder};
      SplitPlace(av, base, top, brk, C, x, nb);
      SplitCanBin(av, base, top, brk, C, x, nb);
      SplitTags(av, base, top, brk, C, mem, {}, x, nb);
      SplitKeepsLists(av, base, top, brk, C, lists, fast, x, nb);
      C := Split(C, x, nb);
      assert {} + raw == raw;
      LiveSplit(av, base, top, brk, C0, x, nb);
      assert InsertAt([], 0, remainder) == [remainder];
      LiveSetKind(C, remainder, Free(1));
      Link(remainder, Hdr(av, 1), Hdr(av, 1), 1, 0, raw);
      WriteHead(av, base, top, brk, C, mem, raw, x);
      assert raw - {x} == {remainder};
      TagWriteKeeps(av, base, top, brk, C, mem, lists, fastbins, fast, x, x + SIZE, nb + 1);
      ghost var m1 := mem;
      mem := mem[x + SIZE := nb + 1];
      ghost var foot := Next(C, remainder);
      WriteTags(av, base, top, brk, C, mem, {remainder}, remainder);
      assert {remainder} - {remainder} == {};
      TagWriteKeeps(av, base, top, brk, C, mem, lists, fastbins, fast, remainder, remainder + SIZE, size - nb + 1);
      ghost var m2 := mem;
      mem := mem[remainder + SIZE := size - nb + 1];
      ghost var m3 := mem;
      TagWriteKeeps(av, base, top, brk, C, mem, lists, fastbins, fast, remainder, foot, size - nb);
      mem := mem[remainder + (size - nb) := size - nb];
      UntouchedThen(C, C, m1, m2, m3);
      UntouchedThen(C, C, m1, m3, mem);
      UntouchedLess(Split(C0, x, nb), C0, m0, m1);
      UntouchedThen(C0, C, m0, m1, mem);
    }

    // "consolidate backward": a free chunk before p leaves its bin and absorbs p.
    method AbsorbPrev(p: int, size: int) returns (x: int, size': int)
      requires Consistent({}) && Settled(C) && p in C && C[p].kind.Used? && size == C[p].size
      modifies this`mem, this`C, this`lists
      ensures Consistent({}) && C.Keys == old(C).Keys && x in C && C[x].prevInUse
      ensures p in C && C[p] == old(C)[p] && forall a | a in C && a != x :: C[a] == old(C)[a]
      ensures Live(C) == Live(old(C)) && Untouched(C, old(mem), mem) && SettledBut(C, x) && x <= p
      ensures if x == p then size' == size && Settled(C) && NoneBefore(old(C), p)
              else BinMember(C, 0, x) && Next(C, x) == p && size' == C[x].size + size
                   && x in old(C) && old(C)[x].kind.Free? && Next(old(C), x) == p
      ensures forall a | a in C :: C[a].size == old(C)[a].size && C[a].kind.Free? == old(C)[a].kind.Free?
    {
      hide PlaceOk, TagsOk, TopOk, RingsOk, MembersOk, SortOk, MapOk, ChainsOk, FastOk, Untouched;
      HeadReads(av, base, top, brk, C, mem, {}, p);
      x, size' := p, size;
      UntouchedSame(C, mem);
      if !PrevInUse(Rd(mem, p + SIZE)) {
        ghost var q := PrevBinned(av, base, top, brk, C, mem, p);
        var prevsize := Rd(mem, p);
        size' := size + prevsize;
        x := p - prevsize;
        ghost var i, k := BinPosition(C, lists, q);
        BinnedNeighbours(av, base, top, brk, C, q);
        LiveSetKind(C, q, Free(0));
        ghost var C0 := C;
        Unlink(x, i, k, {});
        UntouchedLess(C0, C, old(mem), mem);
      } else {
        FlagMeans(av, base, top, brk, C, p);
      }
    }

    // "consolidate forward": the flag after p is cleared and a free chunk after p leaves its bin.
    // Chunk x, if it differs from p, is the free chunk that AbsorbPrev found before p.
    method AbsorbNext(p: int, next: int, nextsize: int, size: int, ghost x: int) returns (size': int)
      requires Consistent({}) && SettledBut(C, x) && x <= p
      requires p in C && C[p].kind.Used? && Next(C, p) == next && next in C && nextsize == C[next].size
      requires x in C && C[x].prevInUse && (x != p ==> BinMember(C, 0, x) && Next(C, x) == p)
      modifies this`mem, this`C, this`lists
      ensures Consistent({p}) && BinMember(C, 0, p) && RightOk(C, top, p)
      ensures x in C && C[x].prevInUse && (x != p ==> BinMember(C, 0, x) && Next(C, x) == p)
      ensures forall a | a in C && a != x && a != p && C[a].kind.Free? :: C[a].kind.Binned()
      ensures C[p].size == old(C)[p].size + (size' - size)
      ensures size' == size + if old(C)[next].kind.Free? then nextsize else 0
      ensures x != p ==> C[x].size == old(C)[x].size
      ensures Live(C) == Live(old(C)) - {p} && Untouched(C, old(mem), mem)
    {
      hide PlaceOk, TagsOk, TopOk, RingsOk, MembersOk, SortOk, MapOk, ChainsOk, FastOk, Untouched;
      ghost var C0, m0 := C, mem;
      HeadReads(av, base, top, brk, C, mem, {}, p);
      TopReads(av, base, top, brk, C, mem);
      NextInUse(av, base, top, brk, C, mem, {}, next);
      var nextinuse := PrevInUse(Rd(mem, next + nextsize + SIZE));
      ClearFlag(p, next, nextsize);
      UntouchedLess(C0, C, m0, mem);
      RawMore(mem, C, {}, {p});
      size' := size;
      if !nextinuse {
        ghost var C1, m1 := C, mem;
        TakeNext(p, next, x);
        UntouchedLess(C1, C, m0, m1);
        UntouchedThen(C, C, m0, m1, mem);
        size' := size + nextsize;
      }
    }

    // set_head(nextchunk, nextsize): block p is released, so the flag after it is cleared.
    method ClearFlag(p: int, next: int, nextsize: int)
      requires Consistent({}) && p in C && C[p].kind.Used?
      requires Next(C, p) == next && next in C && nextsize == C[next].size
      modifies this`mem, this`C
      ensures Consistent({}) && BinMember(C, 0, p) && next != p && C.Keys == old(C).Keys
      ensures forall a | a in C && a != p ::
                && C[a].size == old(C)[a].size && C[a].kind == old(C)[a].kind
                && (a != next ==> C[a].prevInUse == old(C)[a].prevInUse)
      ensures C[p].size == old(C)[p].size && C[p].prevInUse == old(C)[p].prevInUse
      ensures Live(C) == Live(old(C)) - {p} && Untouched(old(C), old(mem), mem)
    {
      hide PlaceOk, TagsOk, TopOk, RingsOk, MembersOk, SortOk, MapOk, ChainsOk, FastOk, Untouched, Turn;
      HeadReads(av, base, top, brk, C, mem, {}, next);
      FlagWriteTags(av, base, top, brk, C, mem, {}, p, Free(0));
      TurnPlace(av, base, top, brk, C, p, Free(0));
      TurnKeepsLists(av, base, top, brk, C, lists, fast, p, Free(0));
      TurnFacts(av, base, top, brk, C, p, Free(0));
      LiveTurn(av, base, top, brk, C, p, Free(0));
      TagWriteKeeps(av, base, top, brk, C, mem, lists, fastbins, fast, next, next + SIZE, nextsize);
      mem := mem[next + SIZE := nextsize];
      C := Turn(C, p, Free(0));
    }

    // The free chunk after p leaves its bin and becomes part of p.
    method TakeNext(p: int, next: int, ghost x: int)
      requires Consistent({}) && BinMember(C, 0, p) && Next(C, p) == next && next in C && C[next].kind.Binned()
      requires x <= p < next
      requires forall a | a in C && a != x && a != p && C[a].kind.Free? :: C[a].kind.Binned()
      modifies this`mem, this`C, this`lists
      ensures Consistent({p}) && BinMember(C, 0, p) && RightOk(C, top, p)
      ensures C == Merge(SetKind(old(C), next, Free(0)), p)
      ensures Live(C) == Live(old(C)) && Untouched(C, old(mem), mem)
    {
      hide PlaceOk, TagsOk, TopOk, RingsOk, MembersOk, SortOk, MapOk, ChainsOk, FastOk, Untouched;
      ghost var C1, m1 := C, mem;
      ghost var i, k := BinPosition(C, lists, next);
      RightNeighbour(av, base, top, brk, C, next, x, p);
      LiveSetKind(C, next, Free(0));
      Unlink(next, i, k, {});
      MergeTags(av, base, top, brk, C, mem, {}, p);
      MergePlace(av, base, top, brk, C, p);
      MergeKeepsLists(av, base, top, brk, C, lists, fast, p);
      C := Merge(C, p);
      assert {} + {p} - {next} == {p};
      UntouchedLess(C1, C, m1, mem);
    }

    // A free chunk x found before p takes p in; only its tags are still to be written.
    ghost method MergePrev(p: int, x: int)
      requires Consistent({p}) && BinMember(C, 0, p) && x in C && C[x].prevInUse
      requires x != p ==> BinMember(C, 0, x) && Next(C, x) == p
      modifies this`C
      ensures Consistent({x}) && BinMember(C, 0, x) && C[x].prevInUse && Live(C) == Live(old(C))
      ensures x == p || p !in C
      ensures forall a | a in C && a != x :: a in old(C) && C[a] == old(C)[a]
      ensures forall a | a in old(C) && a != x && a != p :: a in C
      ensures Next(C, x) == Next(old(C), p)
      ensures C[x].size == if x == p then old(C)[p].size else old(C)[x].size + old(C)[p].size
    {
      hide PlaceOk, TagsOk, TopOk, RingsOk, MembersOk, SortOk, MapOk, ChainsOk, FastOk;
      if x != p {
        MergeTags(av, base, top, brk, C, mem, {p}, x);
        MergePlace(av, base, top, brk, C, x);
        MergeKeepsLists(av, base, top, brk, C, lists, fast, x);
        C := Merge(C, x);
        assert {p} + {x} - {p} == {x};
      }
    }

    // The free run that starts at x enters the front of the unsorted bin.
    method FinishBinned(p: int, x: int, size: int)
      requires Consistent({p}) && BinMember(C, 0, p) && RightOk(C, top, p) && x in C && C[x].prevInUse
      requires x != p ==> BinMember(C, 0, x) && Next(C, x) == p
      requires forall a | a in C && a != x && a != p && C[a].kind.Free? :: C[a].kind.Binned()
      requires size == if x == p then C[p].size else C[x].size + C[p].size
      modifies this`mem, this`C, this`lists
      ensures Consistent({}) && Settled(C)
      ensures Live(C) == Live(old(C)) && Untouched(C, old(mem), mem)
      ensures BinMember(C, 1, x) && C[x].size == size && |lists| == NBINS && |old(lists)| == NBINS
      ensures lists == old(lists)[1 := [x] + old(lists)[1]]
    {
      hide PlaceOk, TagsOk, TopOk, RingsOk, MembersOk, SortOk, MapOk, ChainsOk, FastOk, Untouched;
      ghost var m0, lists0 := mem, lists;
      MergePrev(p, x);
      LiveSetKind(C, x, Free(1));
      ghost var C1 := C;
      FirstAndLast(mem, av, lists, 1);
      var bck := Hdr(av, 1);
      var fwd := Rd(mem, bck + FD);
      Link(x, bck, fwd, 1, 0, {x});

      ghost var m1, foot := mem, Next(C, x);
      WriteTags(av, base, top, brk, C, mem, {x}, x);
      assert {x} - {x} == {};
      TagWriteKeeps(av, base, top, brk, C, mem, lists, fastbins, fast, x, x + SIZE, size + 1);
      mem := mem[x + SIZE := size + 1];
      ghost var m2 := mem;
      TagWriteKeeps(av, base, top, brk, C, mem, lists, fastbins, fast, x, foot, size);
      mem := mem[x + size := size];
      UntouchedThen(C, C, m1, m2, mem);
      UntouchedLess(C1, C, m0, m1);
      UntouchedThen(C, C, m0, m1, mem);
      assert InsertAt(lists0[1], 0, x) == [x] + lists0[1];
    }

    // The free run that starts at x and ends at top becomes top.
    method FinishTop(p: int, x: int, size: int)
      requires Consistent({}) && p in C && C[p].kind.Used? && Next(C, p) == top && SettledBut(C, x)
      requires x in C && C[x].prevInUse && (x != p ==> BinMember(C, 0, x) && Next(C, x) == p)
      requires size == brk - x
      modifies this`mem, this`C, this`top
      ensures Consistent({}) && Settled(C) && top == x
      ensures Live(C) == Live(old(C)) - {p} && Untouched(C, old(mem), mem)
    {
      hide PlaceOk, TagsOk, TopOk, RingsOk, MembersOk, SortOk, MapOk, ChainsOk, FastOk, Untouched, Turn;
      ghost var C0, m0 := C, mem;
      TurnTopTags(mem, C, {}, av, base, top, brk, p);
      TurnPlace(av, base, top, brk, C, p, Free(0));
      TurnKeepsLists(av, base, top, brk, C, lists, fast, p, Free(0));
      TurnFacts(av, base, top, brk, C, p, Free(0));
      LiveTurn(av, base, top, brk, C, p, Free(0));
      TopReads(av, base, top, brk, C, mem);
      RawMore(mem, Turn(C, p, Free(0)), {}, {p});
      C := Turn(C, p, Free(0));
      MergePrev(p, x);
      PopTopTags(av, base, top, brk, C, mem, {x}, x);
      PopTopPlace(av, base, top, brk, C, x);
      DropKeepsLists(C, lists, fast, x);
      assert {x} - {x} == {};
      TagWriteKeeps(av, base, top, brk, C, mem, lists, fastbins, fast, x, x + SIZE, size + 1);
      ghost var C1 := C;
      mem := mem[x + SIZE := size + 1];
      top := x;
      C := C - {x};
      UntouchedLess(C1, C, m0, mem);
    }

    // The consolidation code that fREe and malloc_consolidate share: block p becomes free and
    // joins its free neighbours.
    method Coalesce(p: int) returns (size: int)
      requires Consistent({}) && Settled(C) && p in C && C[p].kind.Used?
      modifies this`mem, this`C, this`lists, this`top
      ensures Consistent({}) && Settled(C)
      ensures Live(C) == Live(old(C)) - {p} && Untouched(C, old(mem), mem)
      ensures exists x :: Neighbourhood(old(C), old(top), brk, p, x, size) && Joined(C, top, lists, old(top), Next(old(C), p), x, size)
    {
      hide PlaceOk, TagsOk, TopOk, RingsOk, MembersOk, SortOk, MapOk, ChainsOk, FastOk, Untouched;
      ghost var C0, m0, top0 := C, mem, top;
      HeadReads(av, base, top, brk, C, mem, {}, p);
      TopReads(av, base, top, brk, C, mem);
      size := ChunkSize(Rd(mem, p + SIZE));
      var next := p + size;
      if next != top { HeadReads(av, base, top, brk, C, mem, {}, next); }
      var nextsize := ChunkSize(Rd(mem, next + SIZE));
      var x;
      x, size := AbsorbPrev(p, size);
      ghost var C1, m1 := C, mem;
      if next != top {
        size := AbsorbNext(p, next, nextsize, size, x);
        ghost var C2, m2 := C, mem;
        FinishBinned(p, x, size);
        UntouchedLess(C1, C, m0, m1);
        UntouchedLess(C2, C, m1, m2);
        UntouchedThen(C, C, m0, m1, m2);
        UntouchedThen(C, C, m0, m2, mem);
      } else {
        size := size + nextsize;
        FinishTop(p, x, size);
        UntouchedLess(C1, C, m0, m1);
        UntouchedThen(C, C, m0, m1, mem);
      }
      assert Neighbourhood(C0, top0, brk, p, x, size) && Joined(C, top, lists, top0, Next(C0, p), x, size);
    }

    // Where a released run of `size` bytes is: it is top, or the newest unsorted chunk.
    static ghost predicate Joined(C: Chunks, top: int, lists: seq<seq<int>>, top0: int, next: int, x: int, size: int) {
      if next == top0 then top == x
      else top == top0 && BinMember(C, 1, x) && C[x].size == size && |lists| == NBINS && lists[1] != [] && lists[1][0] == x
    }

    // One fastbin of malloc_consolidate.
    method ConsolidateBin(j: int)
      requires Consistent({}) && Settled(C) && 0 <= j < NFASTBINS
      modifies this`mem, this`C, this`lists, this`top, this`fastbins, this`fast
      ensures Consistent({}) && Settled(C) && fast == old(fast)[j := []]
      ensures Live(C) == Live(old(C)) && Untouched(old(C), old(mem), mem)
    {
      hide PlaceOk, TagsOk, TopOk, RingsOk, MembersOk, SortOk, MapOk, ChainsOk, FastOk, Untouched, LiveAre;
      EmptyChain(mem, fastbins, fast, j);
      ghost var C0, m0, pending := C, mem, fast[j];
      FastMembers(C, fast, j);
      UseAllPlace(av, base, top, brk, C, pending);
      UseAllTags(mem, C, {}, pending);
      UseAllBins(C, lists, pending);
      UseAllFast(C, fast, j);
      UseAllLive(C, fast, j);
      UntouchedSame(C, mem);
      var p := fastbins[j];
      fastbins := fastbins[j := 0];
      fast := fast[j := []];
      C := UseAll(C, pending);
      while p != 0
        invariant Consistent({}) && Settled(C) && fast == old(fast)[j := []]
        invariant Chain(mem, p, pending) && NoDup(pending)
        invariant LiveAre(C, Live(C0), pending) && Untouched(C0, m0, mem)
        decreases |pending|
      {
        ghost var C1, m1 := C, mem;
        LiveAreKeeps(C, C0, pending);
        var nextp := Rd(mem, p + FD);
        assert pending != [] && p == pending[0];
        var _ := Coalesce(p);
        LiveAreStep(C1, C, Live(C0), pending);
        pending := pending[1..];
        LiveAreKeeps(C, C0, pending);
        PendingChain(av, base, top, brk, C, m1, mem, nextp, pending);
        UntouchedThen(C0, C, m0, m1, mem);
        p := nextp;
      }
      assert pending == [];
      LiveAreDone(C, Live(C0));
    }

    // malloc_consolidate on an initialised state: all fastbins are emptied.
    method Consolidate()
      requires Ready() && fastChunks
      modifies this`mem, this`C, this`lists, this`top, this`fastbins, this`fast, this`fastChunks
      ensures Ready() && !fastChunks && forall j | 0 <= j < |fast| :: fast[j] == []
      ensures Live(C) == Live(old(C)) && Untouched(old(C), old(mem), mem)
    {
      hide PlaceOk, TagsOk, TopOk, RingsOk, MembersOk, SortOk, MapOk, ChainsOk, FastOk, Untouched, Settled;
      FastMembers(C, fast, 0);
      assert forall i | 8 <= i < NFASTBINS :: fast[i] == [];
      ghost var C0, m0 := C, mem;
      fastChunks := false;
      UntouchedSame(C, mem);
      var j := 0;
      while j <= maxFast / 8 - 2
        invariant 0 <= j <= 8 && !fastChunks && Consistent({}) && Settled(C) && |fast| == |old(fast)| == NFASTBINS
        invariant forall i | 0 <= i < |fast| :: fast[i] == if i < j then [] else old(fast)[i]
        invariant Live(C) == Live(C0) && Untouched(C0, m0, mem)
      {
        ghost var C1, m1 := C, mem;
        ConsolidateBin(j);
        UntouchedThen(C0, C1, m0, m1, mem);
        j := j + 1;
      }
    }

    // kernel/mem.c: the break never moves down. A negative request is refused, unless it is so
    // large that the address wraps round to one still inside the heap; a heap that ends below
    // 2^31 has no such address.
    method Sbrk(diff: int) returns (r: int)
      requires -(WORD / 2) <= diff < WORD / 2 && GoodBounds() && heapStart <= brk <= heapEnd
      modifies this`brk
      ensures diff >= 0 ==> if old(brk) + diff <= heapEnd then r == old(brk) && brk == old(brk) + diff
                            else r == FAILURE && brk == old(brk)
      ensures diff < 0 ==> if old(brk) + diff < 0 && old(brk) + diff + WORD <= heapEnd
                           then r == old(brk) && brk == old(brk) + diff + WORD
                           else r == FAILURE && brk == old(brk)
      ensures old(brk) <= brk <= heapEnd && (diff < 0 && heapEnd < WORD / 2 ==> r == FAILURE)
    {
      var s := brk;
      var c := (s + diff) % WORD;
      if c < brk || c > heapEnd {
        return FAILURE;
      }
      brk := c;
      return s;
    }

    // The common end of use_top and sYSMALLOc: nb bytes are cut from the start of top.
    method SplitTop(nb: int) returns (p: int)
      requires Consistent({}) && Settled(C) && GoodSize(nb) && nb + MINSIZE <= brk - top
      modifies this`mem, this`C, this`top
      ensures Consistent({}) && Settled(C) && C == PushTop(old(C), old(top), nb)
      ensures p == old(top) + 8 && 8 < p && old(top) !in old(C) && Aligned(p)
      ensures Live(C) == Live(old(C))[old(top) := nb] && Untouched(old(C), old(mem), mem)
    {
      hide PlaceOk, TagsOk, TopOk, RingsOk, MembersOk, SortOk, MapOk, ChainsOk, FastOk, Untouched;
      ghost var C0, m0 := C, mem;
      TopReads(av, base, top, brk, C, mem);
      var victim := top;
      var size := ChunkSize(Rd(mem, top + SIZE));
      PushTopTags(av, base, top, brk, C, mem, {}, nb);
      PushTopPlace(av, base, top, brk, C, nb);
      PushTopKeepsLists(av, base, top, brk, C, lists, fast, nb);
      LivePushTop(av, base, top, brk, C, nb);
      C := PushTop(C, top, nb);
      top := victim + nb;
      TagWriteKeeps(av, base, top, brk, C, mem, lists, fastbins, fast, victim, victim + SIZE, nb + 1);
      mem := mem[victim + SIZE := nb + 1];
      ghost var m1 := mem;
      TagWriteKeeps(av, base, top, brk, C, mem, lists, fastbins, fast, top, top + SIZE, size - nb + 1);
      mem := mem[victim + nb + SIZE := size - nb + 1];
      UntouchedThen(C, C, m0, m1, mem);
      UntouchedLess(C, C0, m0, mem);
      p := victim + 8;
    }

    // sYSMALLOc when sbrk extended the arena: top takes the new space in.
    method ExtendTop(ghost old_brk: int, size: int, old_size: int)
      requires GoodBounds() && Aligned(size) && 0 <= size && brk == old_brk + size && brk <= heapEnd
      requires av + 768 <= heapStart <= base && maxFast == 72
      requires PlaceOk(av, base, top, old_brk, C) && TagsOk(mem, C, {}) && TopOk(mem, top, old_brk)
      requires RingsOk(mem, av, lists) && MembersOk(C, lists) && SortOk(C, lists) && MapOk(lists, binmap)
      requires ChainsOk(mem, fastbins, fast) && FastOk(C, fast) && old_size == old_brk - top
      modifies this`mem
      ensures Consistent({}) && Untouched(C, old(mem), mem)
    {
      hide PlaceOk, TagsOk, RingsOk, MembersOk, SortOk, MapOk, ChainsOk, FastOk, Untouched;
      GrowPlace(av, base, top, old_brk, brk, C);
      TopWriteTags(av, base, top, brk, C, mem, {}, size + old_size + 1);
      TagWriteKeeps(av, base, top, brk, C, mem, lists, fastbins, fast, top, top + SIZE, size + old_size + 1);
      mem := mem[top + SIZE := size + old_size + 1];
    }

    // Where a large chunk goes in its sorted bin: before the first chunk that is not larger.
    method LargePosition(x: int, size: int, idx: int) returns (bck: int, fwd: int, ghost k: int)
      requires Consistent({}) && x in C && size == C[x].size && 2 <= idx < NBINS && |lists| == NBINS
      ensures 0 <= k <= |lists[idx]| && Fits(C, lists[idx], k, x)
      ensures size >= 256 ==> Placed(C, lists[idx], x, size, k)
      ensures bck == At(Hdr(av, idx), lists[idx], k - 1) && fwd == At(Hdr(av, idx), lists[idx], k)
    {
      hide PlaceOk, TagsOk, TopOk, RingsOk, MembersOk, SortOk, MapOk, ChainsOk, FastOk, SortedBin, NotSmaller;
      ghost var L := lists[idx];
      MembersIn(C, lists, idx);
      FirstAndLast(mem, av, lists, idx);
      SortedAt(C, lists, idx);
      bck := Hdr(av, idx);
      fwd := Rd(mem, bck + FD);
      k := 0;
      if fwd != bck {
        NodeSize(av, base, top, brk, C, mem, lists, idx, |L| - 1, x);
        if size < Rd(mem, Rd(mem, bck + BK) + SIZE) {
          FitsEnd(C, L, x);
          fwd, bck, k := bck, Rd(mem, bck + BK), |L|;
        } else {
          NodeSize(av, base, top, brk, C, mem, lists, idx, 0, x);
          while size + 1 < Rd(mem, fwd + SIZE)
            invariant 0 <= k < |L| && fwd == L[k]
            invariant forall j | 0 <= j < k :: NotSmaller(C, L[j], x)
            invariant forall j | 0 <= j < k :: L[j] in C && C[L[j]].size > size
            decreases |L| - k
          {
            NodeSize(av, base, top, brk, C, mem, lists, idx, k, x);
            NodeWalk(mem, av, lists, idx, k);
            fwd := Rd(mem, fwd + FD);
            k := k + 1;
          }
          NodeSize(av, base, top, brk, C, mem, lists, idx, k, x);
          NodeWalk(mem, av, lists, idx, k);
          bck := Rd(mem, fwd + BK);
          FitsAt(C, L, k, x);
        }
      } else {
        EmptyRing(mem, av, lists, idx);
        FitsAt(C, L, 0, x);
      }
    }

    // "place chunk in bin": free chunk x, just taken from the unsorted bin, enters its own bin.
    method PlaceInBin(x: int, size: int)
      requires Consistent({}) && BinMember(C, 0, x) && CanBin(C, top, x) && FootOk(mem, C, x) && size == C[x].size
      modifies this`mem, this`C, this`lists, this`binmap
      ensures Consistent({}) && C == SetKind(old(C), x, Free(BinOf(size))) && 2 <= BinOf(size) < NBINS
      ensures |lists| == |old(lists)| == NBINS && lists[1] == old(lists)[1]
      ensures exists k :: Placed(old(C), old(lists)[BinOf(size)], x, size, k) && lists == old(lists)[BinOf(size) := InsertAt(old(lists)[BinOf(size)], k, x)]
      ensures Untouched(old(C), old(mem), mem)
    {
      hide PlaceOk, TagsOk, TopOk, RingsOk, MembersOk, SortOk, MapOk, ChainsOk, FastOk, Untouched, FootOk, Fits, CanBin;
      hide BinOf, InsertAt;
      HeadReads(av, base, top, brk, C, mem, {}, x);
      BinOfRange(size);
      var victim_index := BinOf(size);
      MembersIn(C, lists, victim_index);
      ghost var C0, L := C, lists[victim_index];
      FirstAndLast(mem, av, lists, victim_index);
      ghost var k := 0;
      var bck := Hdr(av, victim_index);
      var fwd := Rd(mem, bck + FD);
      if size < MIN_LARGE_SIZE {
        SmallFront(av, base, top, brk, C, lists, x);
      } else {
        bck, fwd, k := LargePosition(x, size, victim_index);
      }
      MarkBin(lists, binmap, victim_index);
      binmap := binmap[victim_index / 32 := binmap[victim_index / 32][victim_index % 32 := true]];
      Link(x, bck, fwd, victim_index, k, {});
      assert Placed(C0, L, x, size, k);
    }

    // The size word of a chunk, with the flag of the chunk before it.
    static function HeadWord(C: Chunks, x: int): int
      requires x in C
    {
      C[x].size + if C[x].prevInUse then 1 else 0
    }

    // Where a chunk goes in its bin: in front of a small bin; in a large bin behind all others if
    // it is below the size word of the last one, else before the first that is not larger.
    static ghost predicate Placed(C: Chunks, L: seq<int>, x: int, size: int, k: int) {
      && 0 <= k <= |L| && (forall j | 0 <= j < |L| :: L[j] in C)
      && if size < 256 then k == 0
         else if L != [] && size < HeadWord(C, L[|L| - 1]) then k == |L|
         else (forall j | 0 <= j < k :: C[L[j]].size > size) && (k < |L| ==> C[L[k]].size <= size)
    }

    // A binned chunk leaves its bin and is handed out whole.
    method TakeWhole(x: int, size: int, nb: int, ghost i: int, ghost k: int)
      requires Consistent({}) && Settled(C) && 1 <= i < NBINS && |lists| == NBINS
      requires 0 <= k < |lists[i]| && lists[i][k] == x && x in C && size == C[x].size && nb <= size < nb + MINSIZE
      modifies this`mem, this`C, this`lists
      ensures Consistent({}) && Settled(C) && Allocated(old(C), C, x, nb) && FrontInUse(C, x) && Untouched(old(C), old(mem), mem)
      ensures lists == old(lists)[i := RemoveAt(old(lists)[i], k)]
    {
      hide FrontInUse;
      hide PlaceOk, TagsOk, TopOk, RingsOk, MembersOk, SortOk, MapOk, ChainsOk, FastOk, Untouched, Allocated, Turn;
      ghost var C0, m0 := C, mem;
      RingMember(C, lists, i, k);
      TakenWhole(av, base, top, brk, C, x, nb);
      Unlink(x, i, k, {});
      ghost var C1, m1 := C, mem;
      SetInuse(x, size);
      LiveSetKind(C0, x, Free(0));
      UntouchedThen(C0, C1, m0, m1, mem);
    }

    // What a cut of nb bytes off chunk x leaves: the only unsorted chunk.
    static ghost predicate Remains(C: Chunks, lists: seq<seq<int>>, x: int, nb: int, size: int) {
      |lists| == NBINS && lists[1] == [x + nb] && BinMember(C, 1, x + nb) && C[x + nb].size == size - nb
    }

    // A binned chunk leaves its bin, is cut, and its remainder becomes the only unsorted chunk.
    method TakeSplit(x: int, size: int, nb: int, ghost i: int, ghost k: int) returns (remainder: int)
      requires Consistent({}) && Settled(C) && 1 <= i < NBINS && |lists| == NBINS
      requires 0 <= k < |lists[i]| && lists[i][k] == x && x in C && size == C[x].size
      requires GoodSize(nb) && nb + MINSIZE <= size && (if i == 1 then lists[1] == [x] else lists[1] == [])
      modifies this`mem, this`C, this`lists
      ensures Consistent({}) && Settled(C) && Allocated(old(C), C, x, nb) && FrontInUse(C, x) && Untouched(old(C), old(mem), mem)
      ensures remainder == x + nb && Remains(C, lists, x, nb, size)
      ensures lists == old(lists)[i := RemoveAt(old(lists)[i], k)][1 := [remainder]]
    {
      hide FrontInUse;
      hide PlaceOk, TagsOk, TopOk, RingsOk, MembersOk, SortOk, MapOk, ChainsOk, FastOk, Untouched, Allocated, Split;
      ghost var C0, m0 := C, mem;
      RingMember(C, lists, i, k);
      BinnedNeighbours(av, base, top, brk, C, x);
      TakenSplit(av, base, top, brk, C, x, nb);
      Unlink(x, i, k, {});
      assert i == 1 ==> RemoveAt([x], 0) == [];
      ghost var C1, m1 := C, mem;
      remainder := SplitVictim(x, nb, size);
      LiveSetKind(C0, x, Free(0));
      UntouchedThen(C0, C1, m0, m1, mem);
    }

    // The k-th unsorted chunk x has gone to its place in its own bin.
    static ghost predicate MovedToBin(C0: Chunks, lists0: seq<seq<int>>, lists: seq<seq<int>>, k: int, x: int) {
      && |lists0| == NBINS && 0 <= k < |lists0[1]| && lists0[1][k] == x && x in C0 && 2 <= BinOf(C0[x].size) < NBINS
      && var b := BinOf(C0[x].size);
         exists j :: Placed(C0, lists0[b], x, C0[x].size, j) && lists == lists0[1 := RemoveAt(lists0[1], k)][b := InsertAt(lists0[b], j, x)]
    }

    // An unsorted chunk moves to its own bin.
    method Rebin(x: int, size: int, ghost k: int)
      requires Consistent({}) && Settled(C) && |lists| == NBINS
      requires 0 <= k < |lists[1]| && lists[1][k] == x && x in C && size == C[x].size
      modifies this`mem, this`C, this`lists, this`binmap
      ensures Consistent({}) && Settled(C) && Untouched(old(C), old(mem), mem)
      ensures Live(C) == Live(old(C)) && FreeSizes(C) == FreeSizes(old(C))
      ensures C == SetKind(SetKind(old(C), x, Free(0)), x, Free(BinOf(size)))
      ensures |lists| == NBINS && lists[1] == RemoveAt(old(lists)[1], k)
      ensures MovedToBin(old(C), old(lists), lists, k, x)
    {
      hide PlaceOk, TagsOk, TopOk, RingsOk, MembersOk, SortOk, MapOk, ChainsOk, FastOk, Untouched, BinOf;
      ghost var C0, m0 := C, mem;
      RingMember(C, lists, 1, k);
      HeadReads(av, base, top, brk, C, mem, {}, x);
      BinOfRange(size);
      BinnedNeighbours(av, base, top, brk, C, x);
      Rebinned(av, base, top, brk, C, x, BinOf(size));
      Unlink(x, 1, k, {});
      ghost var C1, m1 := C, mem;
      PlaceInBin(x, size);
      LiveSetKind(C0, x, Free(0));
      UntouchedThen(C0, C1, m0, m1, mem);
    }

    // The search cut the chunk it found.
    static ghost predicate Cuts(how: How, seen: Chunks, x: int, nb: int) {
      how == LastRemainder || (how == BestFit && x in FreeSizes(seen) && FreeSizes(seen)[x] >= nb + MINSIZE)
    }

    // What is remembered as the last remainder: for a small request, what was left of the chunk
    // that was cut; else what it was before.
    static ghost predicate Remembered(how: How, seen: Chunks, x: int, nb: int, C: Chunks, lists: seq<seq<int>>, rem0: int, rem: int) {
      if Cuts(how, seen, x, nb)
      then x in FreeSizes(seen) && Remains(C, lists, x, nb, FreeSizes(seen)[x]) && rem == if nb < 256 then x + nb else rem0
      else rem == rem0
    }

    // The last remainder is the only unsorted chunk, has room, and no free chunk fits exactly.
    static ghost predicate LastReady(C: Chunks, lists: seq<seq<int>>, rem: int, nb: int) {
      && nb < 256 && |lists| == NBINS && lists[1] == [rem] && BinMember(C, 1, rem) && nb + 16 < C[rem].size
      && NoneExact(C, nb)
    }

    // One unsorted chunk, the last one: it is used at once if it fits exactly, cut if it is the last
    // remainder and alone, and otherwise moved to its own bin.
    method UnsortedStep(nb: int, victim: int) returns (p: int, ghost how: How)
      requires Ready() && GoodSize(nb) && |lists| == NBINS && lists[1] != [] && victim == lists[1][|lists[1]| - 1]
      modifies this`mem, this`C, this`lists, this`binmap, this`lastRemainder
      ensures Ready() && Untouched(old(C), old(mem), mem)
      ensures p == 0 ==> Live(C) == Live(old(C)) && FreeSizes(C) == FreeSizes(old(C))
      ensures p == 0 && NoExact(old(C), nb) ==> NoExact(C, nb)
      ensures p == 0 ==> how == BestFit && |lists| == NBINS && lists[1] == old(lists)[1][..|old(lists)[1]| - 1]
      ensures p != 0 ==> Allocated(old(C), C, p - 8, nb) && FrontInUse(C, p - 8) && how in {LastRemainder, BestFit}
      ensures p != 0 && how == BestFit ==> SmallestFit(old(C), p - 8, nb)
      ensures how == LastRemainder ==> nb < MIN_LARGE_SIZE && old(lists)[1] == [p - 8]
      ensures how == LastRemainder && NoExact(old(C), nb) ==> LastOne(old(C), old(lastRemainder), p - 8, nb)
      ensures p == 0 ==> lastRemainder == old(lastRemainder)
      ensures p != 0 ==> p - 8 == victim && Remembered(how, old(C), p - 8, nb, C, lists, old(lastRemainder), lastRemainder)
      ensures LastReady(old(C), old(lists), old(lastRemainder), nb) ==> how == LastRemainder
      ensures p == 0 ==> MovedToBin(old(C), old(lists), lists, |old(lists)[1]| - 1, victim)
    {
      hide FrontInUse, Placed;
      hide PlaceOk, TagsOk, TopOk, RingsOk, MembersOk, SortOk, MapOk, ChainsOk, FastOk, Untouched, Allocated, Settled, BinOf, NoExact;
      ghost var k := |lists[1]| - 1;
      NodeWalk(mem, av, lists, 1, k);
      RingMember(C, lists, 1, k);
      HeadReads(av, base, top, brk, C, mem, {}, victim);
      var bck := Rd(mem, victim + BK);
      var size := ChunkSize(Rd(mem, victim + SIZE));
      p, how := 0, BestFit;
      if nb < MIN_LARGE_SIZE && bck == Hdr(av, 1) && victim == lastRemainder && size > nb + MINSIZE {
        if k > 0 { NodeWalk(mem, av, lists, 1, k - 1); }
        if NoExact(C, nb) { LastAlone(C, lists, victim, lastRemainder, nb); }
        var remainder := TakeSplit(victim, size, nb, 1, k);
        lastRemainder := remainder;
        p, how := victim + 8, LastRemainder;
      } else if size == nb {
        ExactFit(C, C, victim, nb);
        TakeWhole(victim, size, nb, 1, k);
        p := victim + 8;
      } else {
        if NoExact(C, nb) { RebinnedExact(C, victim, BinOf(size), nb); }
        Rebin(victim, size, k);
      }
    }

    // The loop over the unsorted bin.
    method ProcessUnsorted(nb: int) returns (p: int, ghost how: How, ghost seen: Chunks)
      requires Ready() && GoodSize(nb)
      modifies this`mem, this`C, this`lists, this`binmap, this`lastRemainder
      ensures Ready() && Untouched(old(C), old(mem), mem)
      ensures p == 0 ==> Live(C) == Live(old(C)) && FreeSizes(C) == FreeSizes(old(C)) && |lists| == NBINS && lists[1] == []
      ensures p == 0 ==> how == BestFit
      ensures p == 0 && NoExact(old(C), nb) ==> NoExact(C, nb)
      ensures p != 0 ==> Allocated(old(C), C, p - 8, nb) && FrontInUse(C, p - 8) && how in {LastRemainder, BestFit}
      ensures p != 0 && how == BestFit ==> SmallestFit(old(C), p - 8, nb)
      ensures how == LastRemainder ==> nb < MIN_LARGE_SIZE && Newest(old(lists), p - 8)
      ensures Live(seen) == Live(old(C)) && FreeSizes(seen) == FreeSizes(old(C))
      ensures how == LastRemainder && NoExact(old(C), nb) ==> LastOne(seen, old(lastRemainder), p - 8, nb)
      ensures p == 0 ==> lastRemainder == old(lastRemainder)
      ensures p != 0 ==> Remembered(how, seen, p - 8, nb, C, lists, old(lastRemainder), lastRemainder)
      ensures LastReady(old(C), old(lists), old(lastRemainder), nb) ==> how == LastRemainder && p != 0
    {
      hide FrontInUse;
      hide PlaceOk, TagsOk, TopOk, RingsOk, MembersOk, SortOk, MapOk, ChainsOk, FastOk, Untouched, Allocated, Settled, NoExact, LastOne;
      ghost var C0, m0, lists0 := C, mem, lists;
      p, how, seen := 0, BestFit, C;
      UntouchedSame(C, mem);
      FirstAndLast(mem, av, lists, 1);
      EmptyRing(mem, av, lists, 1);
      var unsorted := Hdr(av, 1);
      var victim := Rd(mem, unsorted + BK);
      while victim != unsorted
        invariant Ready() && Untouched(C0, m0, mem) && |lists| == NBINS && p == 0 && how == BestFit
        invariant Live(C) == Live(C0) && FreeSizes(C) == FreeSizes(C0) && (NoExact(C0, nb) ==> NoExact(C, nb))
        invariant lastRemainder == old(lastRemainder) && Live(seen) == Live(C0) && FreeSizes(seen) == FreeSizes(C0)
        invariant victim == Rd(mem, unsorted + BK) && (victim == unsorted <==> lists[1] == [])
        invariant |lists0| == NBINS && lists[1] <= lists0[1] && ((C == C0 && lists == lists0) || !LastReady(C0, lists0, lastRemainder, nb))
        decreases |lists[1]|
      {
        ghost var C1, m1 := C, mem;
        FirstAndLast(mem, av, lists, 1);
        AllocatedSame(C0, C1);
        seen := C;
        p, how := UnsortedStep(nb, victim);
        UntouchedThen(C0, C1, m0, m1, mem);
        if p != 0 {
          AllocatedThen(C0, C1, C, p - 8, nb);
          return;
        }
        seen := C;
        EmptyRing(mem, av, lists, 1);
        victim := Rd(mem, unsorted + BK);
      }
    }

    // "Exhaust" or "Split": a fitting binned chunk is handed out, and a large enough rest kept.
    method TakeChunk(x: int, nb: int, ghost i: int, ghost k: int) returns (p: int, remainder: int)
      requires Ready() && GoodSize(nb) && 2 <= i < NBINS && |lists| == NBINS && lists[1] == []
      requires 0 <= k < |lists[i]| && lists[i][k] == x && x in C && nb <= C[x].size && SmallestFit(C, x, nb)
      modifies this`mem, this`C, this`lists
      ensures Ready() && Untouched(old(C), old(mem), mem)
      ensures p != 0 && p - 8 == x && Allocated(old(C), C, p - 8, nb) && FrontInUse(C, p - 8)
      ensures if old(C)[x].size < nb + 16 then remainder == 0 else remainder == x + nb > 0 && Remains(C, lists, x, nb, old(C)[x].size)
    {
      hide PlaceOk, TagsOk, TopOk, RingsOk, MembersOk, SortOk, MapOk, ChainsOk, FastOk, Untouched, Allocated, Settled;
      RingMember(C, lists, i, k);
      HeadReads(av, base, top, brk, C, mem, {}, x);
      var size := ChunkSize(Rd(mem, x + SIZE));
      remainder := 0;
      if size - nb < MINSIZE {
        TakeWhole(x, size, nb, i, k);
      } else {
        remainder := TakeSplit(x, size, nb, i, k);
      }
      p := x + 8;
    }

    // Of the chunks of a bin that fit, x is the one nearest the end.
    static ghost predicate RearmostFit(C: Chunks, L: seq<int>, x: int, nb: int) {
      exists k :: 0 <= k < |L| && L[k] == x && forall j | k < j < |L| :: L[j] in C && C[L[j]].size < nb
    }

    // "scan through the chunks of current bin": a large request looks in its own bin first.
    method LargeScan(nb: int, idx: int) returns (p: int)
      requires Ready() && GoodSize(nb) && nb >= MIN_LARGE_SIZE && idx == BinOf(nb) && |lists| == NBINS && lists[1] == [] && 2 <= idx < NBINS
      modifies this`mem, this`C, this`lists
      ensures Ready() && Untouched(old(C), old(mem), mem)
      ensures p == 0 ==> C == old(C) && mem == old(mem) && lists == old(lists) && NoneBetween(C, idx, idx + 1, nb)
      ensures p != 0 ==> Allocated(old(C), C, p - 8, nb) && FrontInUse(C, p - 8) && SmallestFit(old(C), p - 8, nb)
      ensures p != 0 ==> Remembered(BestFit, old(C), p - 8, nb, C, lists, lastRemainder, lastRemainder)
      ensures p != 0 ==> RearmostFit(old(C), old(lists)[idx], p - 8, nb)
    {
      hide FrontInUse;
      hide PlaceOk, TagsOk, TopOk, RingsOk, MembersOk, SortOk, MapOk, ChainsOk, FastOk, Untouched, Allocated, Settled, BinOf;
      hide SmallestFit, RearmostFit, Remembered, Remains;
      BinOfRange(nb);
      UntouchedSame(C, mem);
      ghost var k;
      p, k := RearFit(nb, idx);
      if p == Hdr(av, idx) {
        return 0;
      }
      var victim := p;
      ghost var C0 := C;
      NoneEmpty(C, idx, nb);
      SmallestInBin(av, base, top, brk, C, lists, idx, k, nb);
      var remainder;
      p, remainder := TakeChunk(victim, nb, idx, k);
      LargeRemembers(C0, victim, nb, remainder, C, lists, lastRemainder);
    }

    static lemma LargeRemembers(C0: Chunks, x: int, nb: int, remainder: int, C: Chunks, lists: seq<seq<int>>, rem: int)
      requires x in C0 && C0[x].kind.Free? && nb >= 256
      requires if C0[x].size < nb + 16 then remainder == 0 else remainder == x + nb > 0 && Remains(C, lists, x, nb, C0[x].size)
      ensures Remembered(BestFit, C0, x, nb, C, lists, rem, rem)
    {
      FreeSize(C0, x);
      hide Remains;
    }

    // The walk from the end of a large bin to the first chunk that fits, or the header.
    method RearFit(nb: int, idx: int) returns (victim: int, ghost k: int)
      requires Ready() && GoodSize(nb) && nb >= MIN_LARGE_SIZE && idx == BinOf(nb) && |lists| == NBINS && 2 <= idx < NBINS
      ensures victim == Hdr(av, idx) ==> NoneBetween(C, idx, idx + 1, nb)
      ensures victim != Hdr(av, idx) ==> 0 <= k < |lists[idx]| && lists[idx][k] == victim && BinMember(C, idx, victim) && C[victim].size >= nb
      ensures victim != Hdr(av, idx) ==> RearmostFit(C, lists[idx], victim, nb)
      ensures victim != Hdr(av, idx) ==> forall j | k < j < |lists[idx]| :: lists[idx][j] in C && C[lists[idx][j]].size < nb
    {
      hide PlaceOk, TagsOk, TopOk, RingsOk, MembersOk, SortOk, MapOk, ChainsOk, FastOk, Settled, BinOf, NoneBetween;
      BinOfRange(nb);
      ghost var L := lists[idx];
      EmptyRing(mem, av, lists, idx);
      FirstAndLast(mem, av, lists, idx);
      var bin := Hdr(av, idx);
      victim := Rd(mem, bin + BK);
      k := |L| - 1;
      if L != [] { NodeWalk(mem, av, lists, idx, k); }
      while victim != bin
        invariant -1 <= k < |L| && victim == At(bin, L, k) && (victim == bin <==> k == -1)
        invariant forall j | k < j < |L| :: L[j] in C && C[L[j]].size < nb
        decreases k
      {
        RingMember(C, lists, idx, k);
        NodeSize(av, base, top, brk, C, mem, lists, idx, k, L[k]);
        var size := ChunkSize(Rd(mem, victim + SIZE));
        if size >= nb {
          return;
        }
        NodeWalk(mem, av, lists, idx, k);
        if k > 0 { NodeWalk(mem, av, lists, idx, k - 1); }
        victim := Rd(mem, victim + BK);
        k := k - 1;
      }
      AllSmall(C, lists, idx, nb);
    }

    // The scan of the bitmap from the bin after idx, to the first bin that is not empty.
    method SeekBin(nb: int, idx: int) returns (i: int)
      requires Consistent({}) && Settled(C) && GoodSize(nb) && idx == BinOf(nb) && |lists| == NBINS
      requires NoneBetween(C, idx, idx + 1, nb)
      modifies this`binmap
      ensures Consistent({}) && idx < i <= NBINS && NoneBetween(C, idx, i, nb) && (i < NBINS ==> lists[i] != [])
    {
      hide PlaceOk, TagsOk, TopOk, RingsOk, MembersOk, SortOk, MapOk, ChainsOk, FastOk, Settled, BinOf;
      hide NoneBetween, Value, Pow2;
      BinOfRange(nb);
      MapSize(lists, binmap);
      var block := (idx + 1) / 32;
      var b := (idx + 1) % 32;              // bit == 1 << b
      var map_ := binmap[block];
      while true
        invariant Consistent({}) && |binmap| == 4
        invariant 0 <= block < 4 && 0 <= b <= 32 && map_ == binmap[block]
        invariant idx < block * 32 + b && NoneBetween(C, idx, block * 32 + b, nb)
        decreases 4 - block, 32 - b
      {
        NoBitFrom(map_, b);
        if b == 32 || Pow2(b) > Value(map_) {
          block, map_ := NextBlock(nb, idx, block, b);
          if block >= 3 { return NBINS; }
          b := 0;
          ValueZero(map_);
        }
        LastWordClear(lists, binmap);
        ghost var b0 := b;
        b := NextBit(map_, b);
        ClearBits(C, lists, binmap, idx, block, b0, b, nb);
        i := block * 32 + b;
        var bin := Hdr(av, i);
        EmptyRing(mem, av, lists, i);
        if Rd(mem, bin + BK) != bin { return; }
        // a false alarm
        UnmarkBin(lists, binmap, block, b);
        map_ := map_[b := false];
        binmap := binmap[block := map_];
        EmptyBin(C, lists, idx, i, nb);
        b := b + 1;
      }
    }

    // "Advance to bin with set bit. There must be one."
    static method NextBit(map_: Word, b0: int) returns (b: int)
      requires 0 <= b0 < 32 && exists j :: b0 <= j < 32 && map_[j]
      ensures b0 <= b < 32 && map_[b] && forall j | b0 <= j < b :: !map_[j]
    {
      b := b0;
      while !map_[b]
        invariant b0 <= b < 32 && forall j | b0 <= j < b :: !map_[j]
        decreases 32 - b
      {
        b := b + 1;
      }
    }

    // The bins after idx, smallest size class first: the first non-empty one gives its last chunk.
    method BinScan(nb: int, idx: int) returns (p: int)
      requires Ready() && GoodSize(nb) && idx == BinOf(nb) && |lists| == NBINS && lists[1] == []
      requires NoneBetween(C, idx, idx + 1, nb)
      modifies this`mem, this`C, this`lists, this`binmap, this`lastRemainder
      ensures Ready() && Untouched(old(C), old(mem), mem)
      ensures p == 0 ==> C == old(C) && NoFit(C, nb) && lastRemainder == old(lastRemainder)
      ensures p != 0 ==> Allocated(old(C), C, p - 8, nb) && FrontInUse(C, p - 8) && SmallestFit(old(C), p - 8, nb)
      ensures p != 0 ==> Remembered(BestFit, old(C), p - 8, nb, C, lists, old(lastRemainder), lastRemainder)
      // the last chunk of its bin
      ensures p != 0 ==> exists i :: idx < i < NBINS && old(lists)[i] != [] && old(lists)[i][|old(lists)[i]| - 1] == p - 8
    {
      hide FrontInUse;
      hide PlaceOk, TagsOk, TopOk, RingsOk, MembersOk, SortOk, MapOk, ChainsOk, FastOk, Untouched, Allocated, Settled, BinOf;
      hide SmallestFit, NoneBetween, NoFit;
      UntouchedSame(C, mem);
      BinOfRange(nb);
      var i := SeekBin(nb, idx);
      if i >= NBINS {
        NothingFits(av, base, top, brk, C, lists, nb);
        return 0;
      }
      ghost var k := |lists[i]| - 1;
      FirstAndLast(mem, av, lists, i);
      LaterBinFits(av, base, top, brk, C, lists, i, k, nb);
      SmallestInBin(av, base, top, brk, C, lists, i, k, nb);
      var victim := Rd(mem, Hdr(av, i) + BK);
      var remainder;
      RingMember(C, lists, i, k);
      FreeSize(C, victim);
      p, remainder := TakeChunk(victim, nb, i, k);
      if remainder != 0 && nb < MIN_LARGE_SIZE { lastRemainder := remainder; }
    }

    // "Skip rest of block": advance to the next word of the bitmap that has a bit set.
    method NextBlock(nb: int, idx: int, block0: int, ghost b: int) returns (block: int, map_: Word)
      requires Consistent({}) && |lists| == NBINS && |binmap| == 4
      requires 0 <= block0 < 4 && 0 <= b <= 32 && 1 < idx < block0 * 32 + b && NoneBetween(C, idx, block0 * 32 + b, nb)
      requires forall j | b <= j < 32 :: !binmap[block0][j]
      ensures block0 < block <= 4 && (block >= 3 ==> NoneBetween(C, idx, NBINS, nb))
      ensures block < 3 ==> map_ == binmap[block] && Value(map_) != 0 && NoneBetween(C, idx, block * 32, nb)
    {
      hide PlaceOk, TagsOk, TopOk, RingsOk, MembersOk, SortOk, MapOk, ChainsOk, FastOk;
      ClearBits(C, lists, binmap, idx, block0, b, 32, nb);
      block := block0 + 1;
      map_ := binmap[block0];
      while block < 3 && Value(binmap[block]) == 0
        invariant block0 < block <= 4 && NoneBetween(C, idx, block * 32, nb)
      {
        ValueZero(binmap[block]);
        ClearBits(C, lists, binmap, idx, block, 0, 32, nb);
        block := block + 1;
      }
      if block < 3 {
        map_ := binmap[block];
      } else {
        FewerBins(C, idx, block * 32, nb);
      }
    }

    // malloc_init_state: every bin is its own header, and top is the unsorted bin.
    method InitState()
      requires GoodBounds() && Untried()
      modifies this
      ensures NoArena() && brk == heapStart && C == old(C) && lastRemainder == old(lastRemainder)
    {
      hide RingsOk, MembersOk, SortOk, MapOk, ChainsOk, FastOk;
      var i := 1;
      while i < NBINS
        invariant 1 <= i <= NBINS && Untried0() && lastRemainder == old(lastRemainder)
        invariant forall w | w in mem :: av + 8 <= w < av + 8 * i
        invariant forall j | 1 <= j < i :: Rd(mem, Hdr(av, j) + FD) == Hdr(av, j) && Rd(mem, Hdr(av, j) + BK) == Hdr(av, j)
      {
        var bin := Hdr(av, i);
        mem := mem[bin + BK := bin];
        mem := mem[bin + FD := bin];
        i := i + 1;
      }
      maxFast := 72;
      top := Hdr(av, 1);
      lists := seq(NBINS, _ => []);
      fast := seq(NFASTBINS, _ => []);
      EmptyLists(mem, av, lists, fastbins, fast, binmap);
    }

    // What malloc_init_state leaves alone until it is done.
    ghost predicate Untried0()
      reads this
    {
      && maxFast == 0 && C == map[] && top == 0 && brk == heapStart
      && fastbins == seq(NFASTBINS, _ => 0) && binmap == seq(4, _ => NoBits()) && !anyChunks && !fastChunks
    }

    // The first time through sYSMALLOc: `size` bytes were obtained at heapStart.
    method FirstExtension(size: int)
      requires GoodBounds() && maxFast == 72 && C == map[] && 0 < size && size % 4096 == 0
      requires brk == heapStart + size && brk <= heapEnd
      requires RingsOk(mem, av, lists) && MembersOk(C, lists) && SortOk(C, lists) && MapOk(lists, binmap)
      requires ChainsOk(mem, fastbins, fast) && FastOk(C, fast)
      modifies this`mem, this`brk, this`top, this`base
      ensures Consistent({}) && size <= brk - top && heapStart <= brk && old(brk) <= brk <= old(brk) + 8192
    {
      hide RingsOk, MembersOk, SortOk, MapOk, ChainsOk, FastOk, Untouched, TagsOk, RoundUp;
      FirstTopFits(heapStart, size, heapEnd);
      FirstBaseFacts(heapStart);
      var brk1 := heapStart;
      var front_misalign := (brk1 + 8) % 8;
      var correction := if front_misalign > 0 then 8 - front_misalign else 0;
      var aligned_brk := brk1 + correction;
      assert aligned_brk == FirstBase(heapStart);
      var end_misalign := brk1 + size + correction;
      correction := correction + (RoundUp(end_misalign) - end_misalign);
      assert correction == Correction(heapStart, size);
      var snd_brk := Sbrk(correction);
      if snd_brk == FAILURE {
        correction := 0;
        snd_brk := Sbrk(0);
      }
      assert brk == FirstEnd(heapStart, size, heapEnd) && snd_brk + correction == brk;
      top := aligned_brk;
      base := aligned_brk;
      var word := snd_brk - aligned_brk + correction;
      AlignedSum(brk, top);
      EmptyArena(av, top, brk, mem, word + 1);
      TagWriteKeeps(av, base, top, brk, C, mem, lists, fastbins, fast, top, top + SIZE, word + 1);
      mem := mem[top + SIZE := word - word % 2 + 1];
    }

    // A fastbin holds chunks of nb bytes.
    ghost predicate HitsFast(any: bool, fast: seq<seq<int>>, nb: int) {
      any && nb <= 72 && 0 <= nb / 8 - 2 < |fast| && fast[nb / 8 - 2] != []
    }

    // Which chunk satisfied a request: the head of a fastbin; the last remainder, if it is the
    // only unsorted chunk and nothing fits exactly; the smallest chunk that fits; or a piece
    // above all chunks, if none fits.
    ghost predicate Explained(how: How, seen: Chunks, x: int, nb: int, rem: int, fast: seq<seq<int>>) {
      match how
      case Fastbin => HitsFast(true, fast, nb) && x == fast[nb / 8 - 2][0]
      case LastRemainder => LastOne(seen, rem, x, nb)
      case BestFit => SmallestFit(seen, x, nb)
      case FromTop => NoFit(seen, nb) && forall y | y in seen :: y < x
      case Failed => false
    }

    // The heap `seen` that the search chose from, C0 being the heap before the call and `room`
    // the size of top: C0 itself, except that the fastbins are coalesced first for a large
    // request, and for one that neither the bins nor top could satisfy. Without that, the last
    // remainder is taken only if it is the newest unsorted chunk.
    ghost predicate Pinned(how: How, seen: Chunks, C0: Chunks, lists0: seq<seq<int>>, fastChunks: bool, room: int,
                           base: int, x: int, nb: int) {
      && Live(seen) == Live(C0)
      && if how != Fastbin && fastChunks && (nb >= MIN_LARGE_SIZE || (NoFit(C0, nb) && room < nb + MINSIZE))
         then Consolidated(seen, base)
         else FreeSizes(seen) == FreeSizes(C0) && (how == LastRemainder ==> Newest(lists0, x))
    }

    ghost predicate Newest(lists: seq<seq<int>>, x: int) {
      |lists| == NBINS && lists[1] != [] && lists[1][0] == x
    }

    // A chunk found in a heap with the free chunks of C0 fits there.
    lemma FitFound(how: How, seen: Chunks, C0: Chunks, x: int, nb: int, rem: int)
      requires FreeSizes(seen) == FreeSizes(C0)
      requires if how == BestFit then SmallestFit(seen, x, nb) else how == LastRemainder && LastOne(seen, rem, x, nb)
      ensures !NoFit(C0, nb)
    {
      assert x in FreeSizes(seen) && nb <= FreeSizes(seen)[x];
    }

    // An exact fit is not cut.
    static lemma ExactFound(C0: Chunks, x: int, nb: int, C: Chunks, lists: seq<seq<int>>, rem: int)
      requires SmallestFit(C0, x, nb) && x in C0 && C0[x].size == nb
      ensures Remembered(BestFit, C0, x, nb, C, lists, rem, rem) && !NoneExact(C0, nb)
    {
      FreeSize(C0, x);
    }

    // What no allocation does: set a flag, or take much more memory than it needs.
    ghost predicate Steady(any: bool, any': bool, fastChunks: bool, fastChunks': bool, brk0: int, brk1: int, nb: int) {
      any' == any && (fastChunks' ==> fastChunks) && brk0 <= brk1 <= brk0 + nb + 0x4000
    }

    // A request for nb bytes can only fail if the heap has no room for it, or if it is so large
    // that the growth of the heap is not a positive 32-bit number.
    ghost predicate Exhausted(nb: int, brk0: int) {
      nb + MINSIZE + 4096 > WORD / 2 || brk0 + nb + MINSIZE + 4096 > heapEnd
    }

    // The part of sYSMALLOc that obtains memory from sbrk.
    method Grow(nb: int) returns (ok: bool)
      requires GoodBounds() && heapStart <= brk <= heapEnd && GoodSize(nb) && nb + MINSIZE < WORD
      requires NoArena() || (Ready() && brk - top < nb + MINSIZE)
      modifies this`mem, this`brk, this`top, this`base
      ensures Untouched(old(C), old(mem), mem) && old(brk) <= brk <= old(brk) + nb + 0x4000 && brk <= heapEnd
      ensures old(Ready()) ==> base == old(base)
      ensures ok ==> Consistent({}) && Settled(C) && nb + MINSIZE <= brk - top
      ensures !ok ==> mem == old(mem) && top == old(top) && brk == old(brk) && base == old(base) && Exhausted(nb, brk)
    {
      hide PlaceOk, TagsOk, RingsOk, MembersOk, SortOk, MapOk, ChainsOk, FastOk, Untouched, Settled, GrowthSize;
      UntouchedSame(C, mem);
      if !NoArena() { TopReads(av, base, top, brk, C, mem); }
      var old_top, old_size := top, ChunkSize(Rd(mem, top + SIZE));
      ghost var old_brk, m0 := brk, mem;
      GrowthFacts(nb, old_size);
      var size := GrowthSize(nb, old_size);
      var brk1 := FAILURE;
      if 0 < size < WORD / 2 {
        brk1 := Sbrk(size);
      }
      if brk1 == FAILURE {
        return false;
      }
      EmptySettled();
      if brk1 == old_top + old_size {
        PageIsAligned(size);
        ExtendTop(old_brk, size, old_size);
      } else {
        FirstExtension(size);
        NoBlocks(m0, mem);
      }
      ok := true;
    }

    // Then the block is cut from top.
    method GrowAndCut(nb: int) returns (p: int, ghost how: How)
      requires GoodBounds() && heapStart <= brk <= heapEnd && GoodSize(nb) && nb + MINSIZE < WORD
      requires NoArena() || (Ready() && brk - top < nb + MINSIZE)
      modifies this`mem, this`brk, this`top, this`base, this`C
      ensures Valid() && Untouched(old(C), old(mem), mem)
      ensures p != 0 ==> Ready() && Allocated(old(C), C, p - 8, nb) && FrontInUse(C, p - 8) && how == FromTop && forall y | y in old(C) :: y < p - 8
      ensures (old(Ready()) ==> base == old(base)) && old(brk) <= brk <= old(brk) + nb + 0x4000
      ensures p == 0 ==> C == old(C) && how == Failed && Exhausted(nb, old(brk))
    {
      hide PlaceOk, TagsOk, TopOk, RingsOk, MembersOk, SortOk, MapOk, ChainsOk, FastOk, Untouched, Settled, Allocated, Exhausted;
      ghost var C0, m0 := C, mem;
      var ok := Grow(nb);
      if !ok { return 0, Failed; }
      ghost var m1 := mem;
      BelowTop(av, base, top, brk, C);
      p := SplitTop(nb);
      how := FromTop;
      CutFromTop(C0, C, p - 8, nb);
      UntouchedThen(C0, C0, m0, m1, mem);
    }

    // sYSMALLOc: consolidate and retry from scratch if there are fastbin chunks, else grow.
    method SysMalloc(nb: int) returns (p: int, ghost how: How, ghost seen: Chunks)
      requires Valid() && maxFast == 72 && GoodSize(nb) && nb + MINSIZE < WORD && NoFit(C, nb)
      requires NoArena() || brk - top < nb + MINSIZE
      modifies this
      ensures Valid() && maxFast == 72 && Untouched(old(C), old(mem), mem)
      ensures p != 0 ==> Ready() && Allocated(old(C), C, p - 8, nb)
      ensures p == 0 ==> Live(C) == Live(old(C)) && how == Failed && Exhausted(nb, old(brk))
      ensures p != 0 ==> how != Fastbin && FrontInUse(C, p - 8) && (!old(fastChunks) ==> how == FromTop)
      ensures p != 0 ==> Explained(how, seen, p - 8, nb, old(lastRemainder), old(fast))
      ensures p != 0 ==> Pinned(how, seen, old(C), old(lists), old(fastChunks), old(brk) - old(top), base, p - 8, nb)
      ensures p != 0 ==> Remembered(how, seen, p - 8, nb, C, lists, old(lastRemainder), lastRemainder)
      ensures p == 0 ==> lastRemainder == old(lastRemainder)
      ensures Steady(old(anyChunks), anyChunks, old(fastChunks), fastChunks, old(brk), brk, nb)
      ensures old(Ready()) ==> base == old(base)
      decreases fastChunks, 0
    {
      hide UseAll;
      hide FrontInUse;
      hide PlaceOk, TagsOk, TopOk, RingsOk, MembersOk, SortOk, MapOk, ChainsOk, FastOk, Untouched, Settled, Allocated;
      hide LastOne, SmallestFit, NoFit, Consolidated;
      if fastChunks {
        ghost var C0, m0 := C, mem;
        Consolidate();
        ghost var C1, m1 := C, mem;
        AllocatedSame(C0, C1);
        RetrySize(nb);
        IsConsolidated(av, base, top, brk, C, fast);
        p, how, seen := MAlloc(nb - 7);
        if p != 0 {
          AllocatedThen(C0, C1, C, p - 8, nb);
          ConsolidatedToo(C1, seen, base);
        }
        UntouchedThen(C0, C1, m0, m1, mem);
      } else {
        seen := C;
        p, how := GrowAndCut(nb);
      }
    }

    // The label use_top of mALLOc.
    method UseTop(nb: int) returns (p: int, ghost how: How, ghost seen: Chunks)
      requires Valid() && maxFast == 72 && GoodSize(nb) && nb + MINSIZE < WORD && NoFit(C, nb)
      requires nb >= MIN_LARGE_SIZE ==> !fastChunks
      modifies this
      ensures Valid() && maxFast == 72 && Untouched(old(C), old(mem), mem)
      ensures p != 0 ==> Ready() && Allocated(old(C), C, p - 8, nb)
      ensures p == 0 ==> Live(C) == Live(old(C)) && how == Failed && Exhausted(nb, old(brk))
      ensures p != 0 ==> how != Fastbin && FrontInUse(C, p - 8) && (!old(fastChunks) || old(brk) - old(top) >= nb + MINSIZE ==> how == FromTop)
      ensures p != 0 ==> Explained(how, seen, p - 8, nb, old(lastRemainder), old(fast))
      ensures p != 0 ==> Pinned(how, seen, old(C), old(lists), old(fastChunks), old(brk) - old(top), base, p - 8, nb)
      ensures p != 0 ==> Remembered(how, seen, p - 8, nb, C, lists, old(lastRemainder), lastRemainder)
      ensures p == 0 ==> lastRemainder == old(lastRemainder)
      ensures Steady(old(anyChunks), anyChunks, old(fastChunks), fastChunks, old(brk), brk, nb)
      ensures old(Ready()) ==> base == old(base)
      decreases fastChunks, 1, 0
    {
      hide PlaceOk, TagsOk, RingsOk, MembersOk, SortOk, MapOk, ChainsOk, FastOk, Untouched, Settled, Allocated, NoFit;
      hide LastOne, SmallestFit, Consolidated, Exhausted;
      if !NoArena() { TopReads(av, base, top, brk, C, mem); }
      var size := ChunkSize(Rd(mem, top + SIZE));
      if size >= nb + MINSIZE {
        seen := C;
        BelowTop(av, base, top, brk, C);
        p := SplitTop(nb);
        how := FromTop;
        CutFromTop(seen, C, p - 8, nb);
      } else {
        p, how, seen := SysMalloc(nb);
      }
    }

    // The fast path of mALLOc: the first chunk of the fastbin for nb, if there is one.
    method TakeFast(nb: int) returns (p: int)
      requires Ready() && GoodSize(nb) && nb <= maxFast
      modifies this`C, this`fastbins, this`fast
      ensures Ready()
      ensures |old(fast)| == NFASTBINS && 0 <= nb / 8 - 2 < NFASTBINS
      ensures p == 0 ==> C == old(C) && fast == old(fast) && fast[nb / 8 - 2] == []
      ensures p != 0 ==> Allocated(old(C), C, p - 8, nb) && old(fast)[nb / 8 - 2] == [p - 8] + fast[nb / 8 - 2]
      ensures p != 0 ==> C == UseAll(old(C), [p - 8])
      ensures p != 0 ==> fast == old(fast)[nb / 8 - 2 := fast[nb / 8 - 2]]
    {
      hide PlaceOk, TagsOk, TopOk, RingsOk, MembersOk, SortOk, MapOk, ChainsOk, FastOk;
      var j := nb / 8 - 2;
      FastMembers(C, fast, j);
      EmptyChain(mem, fastbins, fast, j);
      var victim := fastbins[j];
      if victim == 0 { return 0; }
      FastPop(av, base, top, brk, C, mem, fastbins, fast, j);
      HeadReads(av, base, top, brk, C, mem, {}, victim);
      UseAllPlace(av, base, top, brk, C, [victim]);
      UseAllTags(mem, C, {}, [victim]);
      UseAllBins(C, lists, [victim]);
      LiveUse(C, victim);
      fastbins := fastbins[j := Rd(mem, victim + FD)];
      fast := fast[j := fast[j][1..]];
      C := UseAll(C, [victim]);
      p := victim + 8;
    }

    // The last chunk of the small bin for nb, which holds chunks of exactly that size.
    method TakeSmall(nb: int) returns (p: int)
      requires Ready() && GoodSize(nb) && nb < MIN_LARGE_SIZE
      modifies this`mem, this`C, this`lists
      ensures Ready() && Untouched(old(C), old(mem), mem)
      ensures p == 0 ==> C == old(C) && mem == old(mem) && lists == old(lists) && NoExact(C, nb)
      ensures p != 0 ==> Allocated(old(C), C, p - 8, nb) && FrontInUse(C, p - 8) && SmallestFit(old(C), p - 8, nb)
      ensures |old(lists)| == NBINS && (p == 0 <==> old(lists)[nb / 8] == [])
      ensures p != 0 ==> p - 8 == old(lists)[nb / 8][|old(lists)[nb / 8]| - 1] && p - 8 in old(C) && old(C)[p - 8].size == nb
    {
      hide FrontInUse;
      hide PlaceOk, TagsOk, TopOk, RingsOk, MembersOk, SortOk, MapOk, ChainsOk, FastOk, Untouched, Allocated, Settled, NoExact;
      UntouchedSame(C, mem);
      var idx := nb / 8;
      FirstAndLast(mem, av, lists, idx);
      EmptyRing(mem, av, lists, idx);
      var victim := Rd(mem, Hdr(av, idx) + BK);
      if victim == Hdr(av, idx) {
        EmptySmallBin(C, lists, nb);
        return 0;
      }
      ghost var k := |lists[idx]| - 1;
      RingMember(C, lists, idx, k);
      SmallSize(av, base, top, brk, C, lists, idx, victim);
      HeadReads(av, base, top, brk, C, mem, {}, victim);
      ExactFit(C, C, victim, nb);
      TakeWhole(victim, nb, nb, idx, k);
      p := victim + 8;
    }

    // Everything in mALLOc after the exact fits of small requests: the unsorted chunks, the bins.
    method Search(nb: int) returns (p: int, ghost how: How, ghost seen: Chunks)
      requires Ready() && GoodSize(nb) && (nb < MIN_LARGE_SIZE ==> NoExact(C, nb))
      modifies this`mem, this`C, this`lists, this`binmap, this`lastRemainder
      ensures Ready() && Untouched(old(C), old(mem), mem)
      ensures p == 0 ==> Live(C) == Live(old(C)) && FreeSizes(C) == FreeSizes(old(C)) && NoFit(C, nb)
      ensures p != 0 ==> Allocated(old(C), C, p - 8, nb) && FrontInUse(C, p - 8) && how in {LastRemainder, BestFit}
      ensures Live(seen) == Live(old(C)) && FreeSizes(seen) == FreeSizes(old(C))
      ensures p != 0 && how == BestFit ==> SmallestFit(seen, p - 8, nb)
      ensures p != 0 && how == LastRemainder ==> LastOne(seen, old(lastRemainder), p - 8, nb)
      ensures p == 0 ==> lastRemainder == old(lastRemainder)
      ensures p != 0 ==> Remembered(how, seen, p - 8, nb, C, lists, old(lastRemainder), lastRemainder)
      ensures LastReady(old(C), old(lists), old(lastRemainder), nb) ==> how == LastRemainder && p != 0
      ensures how == LastRemainder ==> nb < MIN_LARGE_SIZE && Newest(old(lists), p - 8)
    {
      hide FrontInUse;
      hide PlaceOk, TagsOk, TopOk, RingsOk, MembersOk, SortOk, MapOk, ChainsOk, FastOk, Untouched, Allocated, Settled, NoExact;
      hide BinOf, NoneBetween, LastOne;
      ghost var C0, m0 := C, mem;
      p, how, seen := ProcessUnsorted(nb);
      if p != 0 { return; }
      seen := C;
      ghost var C1, m1 := C, mem;
      AllocatedSame(C0, C1);
      var idx := BinOf(nb);
      BinOfRange(nb);
      if nb >= MIN_LARGE_SIZE {
        p := LargeScan(nb, idx);
      } else {
        NoExactSmall(av, base, top, brk, C, lists, nb);
        UntouchedSame(C, mem);
      }
      if p == 0 {
        p := BinScan(nb, idx);
      }
      UntouchedThen(C0, C1, m0, m1, mem);
      if p != 0 { AllocatedThen(C0, C1, C, p - 8, nb); }
    }

    // mALLOc.  `seen` is the heap the search looked at: if the fastbins were consolidated on the
    // way, it is the heap after that.
    method MAlloc(bytes: int) returns (p: int, ghost how: How, ghost seen: Chunks)
      requires Valid() && 0 <= bytes < WORD
      modifies this
      ensures Valid() && Untouched(old(C), old(mem), mem)
      ensures p != 0 ==> Ready() && Allocated(old(C), C, p - 8, Request2Size(bytes)) && !OutOfRange(bytes)
      ensures p == 0 ==> Live(C) == Live(old(C)) && how == Failed
      ensures p == 0 ==> OutOfRange(bytes) || Exhausted(Request2Size(bytes), old(brk))
      ensures old(maxFast) == 72 ==> maxFast == 72
      ensures p != 0 ==> Explained(how, seen, p - 8, Request2Size(bytes), old(lastRemainder), old(fast))
      ensures p != 0 ==> Pinned(how, seen, old(C), old(lists), old(fastChunks), old(brk) - old(top), base, p - 8, Request2Size(bytes))
      ensures p != 0 ==> Remembered(how, seen, p - 8, Request2Size(bytes), C, lists, old(lastRemainder), lastRemainder)
      ensures p == 0 ==> lastRemainder == old(lastRemainder)
      ensures p != 0 ==> (how == Fastbin <==> HitsFast(old(anyChunks), old(fast), Request2Size(bytes)))
      ensures p == 0 ==> !HitsFast(old(anyChunks), old(fast), Request2Size(bytes))
      ensures p != 0 && how == Fastbin ==> C == UseAll(old(C), [p - 8]) && mem == old(mem)
      ensures LastReady(old(C), old(lists), old(lastRemainder), Request2Size(bytes))
              && !HitsFast(old(anyChunks), old(fast), Request2Size(bytes)) && !OutOfRange(bytes) ==>
                how == LastRemainder && p - 8 == old(lastRemainder)
      ensures Steady(old(anyChunks), anyChunks, old(fastChunks), fastChunks, old(brk), brk, Request2Size(bytes))
      ensures old(Ready()) ==> base == old(base)
      ensures p != 0 && how != Fastbin ==> FrontInUse(C, p - 8)
      decreases fastChunks, 2
    {
      hide FrontInUse;
      hide PlaceOk, TagsOk, TopOk, RingsOk, MembersOk, SortOk, MapOk, ChainsOk, FastOk, Untouched, Allocated, Settled;
      hide LastOne, SmallestFit, Consolidated, Exhausted, Remembered;
      p, how, seen := 0, Failed, C;
      UntouchedSame(C, mem);
      if OutOfRange(bytes) { return; }
      var nb := Request2Size(bytes);
      RequestFits(bytes);
      if !anyChunks {
        assert !LastReady(C, lists, lastRemainder, nb);
        if maxFast == 0 { InitState(); }
        p, how, seen := UseTop(nb);
        if old(maxFast) == 0 { NoBlocks(old(mem), mem); }
        return;
      }
      p, how, seen := AllocateFrom(nb);
    }

    // "This helps promote locality for runs of consecutive small requests": after a small request
    // cut a chunk of `size` bytes, the next small one is answered from what was left of it, right
    // behind the first block, if it has room there and no free chunk fits exactly.
    method TwoSmall(bytes: int, more: int) returns (p: int, q: int, ghost size: int, ghost exact: bool)
      requires Valid() && 0 <= bytes < WORD && 0 <= more < WORD
      modifies this
      ensures Valid()
      ensures p != 0 && Request2Size(bytes) < 256 && Request2Size(more) < 256 && Request2Size(bytes) + Request2Size(more) + 16 < size && !exact ==>
                q == p + Request2Size(bytes)
    {
      hide Valid, Ready, Untouched, Allocated, Explained, Pinned, Steady, Exhausted, FrontInUse, UseAll;
      ghost var how, seen;
      p, how, seen := MAlloc(bytes);
      size := if p != 0 && Cuts(how, seen, p - 8, Request2Size(bytes)) then FreeSizes(seen)[p - 8] else 0;
      exact := !NoneExact(C, Request2Size(more)) || HitsFast(anyChunks, fast, Request2Size(more));
      q, how, seen := MAlloc(more);
    }

    // mALLOc once there have been frees.
    method AllocateFrom(nb: int) returns (p: int, ghost how: How, ghost seen: Chunks)
      requires Valid() && Ready() && anyChunks && GoodSize(nb) && nb + MINSIZE < WORD
      modifies this
      ensures Valid() && maxFast == 72 && Untouched(old(C), old(mem), mem)
      ensures p != 0 ==> Ready() && Allocated(old(C), C, p - 8, nb)
      ensures p == 0 ==> Live(C) == Live(old(C)) && how == Failed && Exhausted(nb, old(brk))
      ensures p != 0 ==> Explained(how, seen, p - 8, nb, old(lastRemainder), old(fast))
      ensures p != 0 ==> Pinned(how, seen, old(C), old(lists), old(fastChunks), old(brk) - old(top), base, p - 8, nb)
      ensures p != 0 ==> Remembered(how, seen, p - 8, nb, C, lists, old(lastRemainder), lastRemainder)
      ensures p == 0 ==> lastRemainder == old(lastRemainder)
      ensures p != 0 ==> (how == Fastbin <==> HitsFast(old(anyChunks), old(fast), nb))
      ensures p == 0 ==> !HitsFast(old(anyChunks), old(fast), nb)
      ensures p != 0 && how == Fastbin ==> C == UseAll(old(C), [p - 8]) && mem == old(mem)
      ensures LastReady(old(C), old(lists), old(lastRemainder), nb) && !HitsFast(old(anyChunks), old(fast), nb) ==>
                how == LastRemainder && p - 8 == old(lastRemainder)
      ensures Steady(old(anyChunks), anyChunks, old(fastChunks), fastChunks, old(brk), brk, nb)
      ensures old(Ready()) ==> base == old(base)
      ensures p != 0 && how != Fastbin ==> FrontInUse(C, p - 8)
      decreases fastChunks, 2, 0
    {
      hide UseAll;
      hide PlaceOk, TagsOk, TopOk, RingsOk, MembersOk, SortOk, MapOk, ChainsOk, FastOk, Untouched, Allocated, Settled;
      hide SmallestFit, NoExact, NoFit, LastOne, Consolidated, Exhausted, FrontInUse;
      seen, how := C, Fastbin;
      UntouchedSame(C, mem);
      if nb <= maxFast {
        p := TakeFast(nb);
        if p != 0 { return; }
      }
      if nb < MIN_LARGE_SIZE {
        p := TakeSmall(nb);
        if p != 0 {
          how := BestFit;
          FitFound(how, seen, seen, p - 8, nb, lastRemainder);
          ExactFound(seen, p - 8, nb, C, lists, lastRemainder);
          return;
        }
        p, how, seen := SearchAndTop(nb);
      } else {
        p, how, seen := AllocateLarge(nb);
      }
    }

    // A large request: the fastbins are consolidated before the search.
    method AllocateLarge(nb: int) returns (p: int, ghost how: How, ghost seen: Chunks)
      requires Valid() && Ready() && GoodSize(nb) && nb >= MIN_LARGE_SIZE && nb + MINSIZE < WORD
      modifies this
      ensures Valid() && maxFast == 72 && Untouched(old(C), old(mem), mem)
      ensures p != 0 ==> Ready() && Allocated(old(C), C, p - 8, nb) && how != Fastbin && FrontInUse(C, p - 8)
      ensures p == 0 ==> Live(C) == Live(old(C)) && how == Failed && Exhausted(nb, old(brk))
      ensures p != 0 ==> Explained(how, seen, p - 8, nb, old(lastRemainder), old(fast))
      ensures p != 0 ==> Pinned(how, seen, old(C), old(lists), old(fastChunks), old(brk) - old(top), base, p - 8, nb)
      ensures p != 0 ==> Remembered(how, seen, p - 8, nb, C, lists, old(lastRemainder), lastRemainder)
      ensures p == 0 ==> lastRemainder == old(lastRemainder)
      ensures Steady(old(anyChunks), anyChunks, old(fastChunks), fastChunks, old(brk), brk, nb)
      ensures base == old(base)
      decreases fastChunks, 1, 2
    {
      hide PlaceOk, TagsOk, TopOk, RingsOk, MembersOk, SortOk, MapOk, ChainsOk, FastOk, Untouched, Allocated, Settled;
      hide SmallestFit, NoExact, NoFit, LastOne, Consolidated, Exhausted, FrontInUse, UseAll;
      ghost var C0, m0 := C, mem;
      UntouchedSame(C, mem);
      if fastChunks {
        Consolidate();
        IsConsolidated(av, base, top, brk, C, fast);
      }
      ghost var C1, m1 := C, mem;
      AllocatedSame(C0, C1);
      p, how, seen := SearchAndTop(nb);
      UntouchedThen(C0, C1, m0, m1, mem);
      if p != 0 {
        AllocatedThen(C0, C1, C, p - 8, nb);
        if old(fastChunks) { ConsolidatedToo(C1, seen, base); }
      }
    }

    // The search of the bins, and then top.
    method SearchAndTop(nb: int) returns (p: int, ghost how: How, ghost seen: Chunks)
      requires Valid() && Ready() && GoodSize(nb) && nb + MINSIZE < WORD
      requires if nb < MIN_LARGE_SIZE then NoExact(C, nb) else !fastChunks
      modifies this
      ensures Valid() && maxFast == 72 && Untouched(old(C), old(mem), mem)
      ensures p != 0 ==> Ready() && Allocated(old(C), C, p - 8, nb) && how != Fastbin && FrontInUse(C, p - 8)
      ensures p == 0 ==> Live(C) == Live(old(C)) && how == Failed && Exhausted(nb, old(brk))
      ensures p != 0 ==> Explained(how, seen, p - 8, nb, old(lastRemainder), old(fast))
      ensures p != 0 ==> Pinned(how, seen, old(C), old(lists), old(fastChunks), old(brk) - old(top), base, p - 8, nb)
      ensures p != 0 ==> Remembered(how, seen, p - 8, nb, C, lists, old(lastRemainder), lastRemainder)
      ensures p == 0 ==> lastRemainder == old(lastRemainder)
      ensures LastReady(old(C), old(lists), old(lastRemainder), nb) ==> how == LastRemainder && p - 8 == old(lastRemainder)
      ensures Steady(old(anyChunks), anyChunks, old(fastChunks), fastChunks, old(brk), brk, nb)
      ensures base == old(base)
      decreases fastChunks, 1, 1
    {
      hide PlaceOk, TagsOk, TopOk, RingsOk, MembersOk, SortOk, MapOk, ChainsOk, FastOk, Untouched, Allocated, Settled;
      hide SmallestFit, NoExact, LastOne, Consolidated, Exhausted, FrontInUse;
      ghost var C0, m0 := C, mem;
      p, how, seen := Search(nb);
      if p != 0 {
        FitFound(how, seen, C0, p - 8, nb, old(lastRemainder));
        return;
      }
      ghost var C2, m2 := C, mem;
      AllocatedSame(C0, C2);
      p, how, seen := UseTop(nb);
      UntouchedThen(C0, C2, m0, m2, mem);
      if p != 0 { AllocatedThen(C0, C2, C, p - 8, nb); }
    }

    // The link and the head of fastbin j.
    method PushFast(x: int, j: int)
      requires Consistent({}) && Settled(C) && x in C && C[x].kind.Used? && 0 <= j < NFASTBINS && C[x].size == 16 + 8 * j
      modifies this`mem, this`C, this`fastbins, this`fast
      ensures Consistent({}) && Settled(C) && C == SetKind(old(C), x, Fast(j))
      ensures Live(C) == Live(old(C)) - {x} && Untouched(C, old(mem), mem)
      ensures |old(fast)| == NFASTBINS && fast == old(fast)[j := [x] + old(fast)[j]]
    {
      hide PlaceOk, TagsOk, TopOk, RingsOk, MembersOk, SortOk, MapOk, ChainsOk, FastOk, Untouched, Settled;
      SettledKind(C, x, Fast(j));
      FastPush(av, base, top, brk, C, mem, fastbins, fast, j, x);
      FastWrite(av, base, top, brk, C, mem, lists, x, j, fastbins[j]);
      LiveRelease(C, x, Fast(j));
      mem := mem[x + FD := fastbins[j]];
      fastbins := fastbins[j := x];
      fast := fast[j := [x] + fast[j]];
      C := SetKind(C, x, Fast(j));
    }

    // The fastbin branch of fREe.
    method FreeFast(x: int, size: int)
      requires Ready() && x in C && C[x].kind.Used? && size == C[x].size && size <= maxFast
      modifies this`mem, this`C, this`fastbins, this`fast, this`fastChunks, this`anyChunks
      ensures Ready() && Live(C) == Live(old(C)) - {x} && Untouched(C, old(mem), mem)
      ensures |old(fast)| == NFASTBINS && 0 <= size / 8 - 2 < NFASTBINS
      ensures fast == old(fast)[size / 8 - 2 := [x] + old(fast)[size / 8 - 2]] && fastChunks && anyChunks
    {
      hide PlaceOk, TagsOk, TopOk, RingsOk, MembersOk, SortOk, MapOk, ChainsOk, FastOk, Untouched, Settled;
      HeadReads(av, base, top, brk, C, mem, {}, x);
      fastChunks, anyChunks := true, true;
      PushFast(x, size / 8 - 2);
    }

    // fREe.  The call of sYSTRIm has no effect here, because the break never moves down.
    method MFree(p: int)
      requires Valid() && (p != 0 ==> p - 8 in Live(C))
      modifies this
      ensures Valid() && Untouched(C, old(mem), mem)
      ensures Live(C) == if p == 0 then Live(old(C)) else Live(old(C)) - {p - 8}
      ensures brk == old(brk) && base == old(base) && (p != 0 ==> anyChunks)
      ensures p != 0 && Live(old(C))[p - 8] <= 72 ==>
                var j := Live(old(C))[p - 8] / 8 - 2;
                fastChunks && 0 <= j < |old(fast)| && fast == old(fast)[j := [p - 8] + old(fast)[j]]
      ensures p == 0 ==> fast == old(fast) && fastChunks == old(fastChunks)
      // a larger block is joined with its free neighbours; from 128K on all fastbins are emptied
      ensures p != 0 && Live(old(C))[p - 8] > 72 ==>
                Freed(p - 8, old(C), old(top), old(fast), old(fastChunks))
    {
      hide PlaceOk, TagsOk, TopOk, RingsOk, MembersOk, SortOk, MapOk, ChainsOk, FastOk, Untouched, Settled;
      UntouchedSame(C, mem);
      if p == 0 { return; }
      var x := p - 8;
      HeadReads(av, base, top, brk, C, mem, {}, x);
      var size := ChunkSize(Rd(mem, x + SIZE));
      if size <= maxFast {
        FreeFast(x, size);
      } else {
        anyChunks := true;
        ghost var C0, top0, fast0, flag0 := C, top, fast, fastChunks;
        size := Coalesce(x);
        ghost var y :| Neighbourhood(C0, top0, brk, x, y, size) && Joined(C, top, lists, top0, Next(C0, x), y, size);
        if size >= 131072 && fastChunks {          // FASTBIN_CONSOLIDATION_THRESHOLD
          ghost var C1, m0, m1 := C, old(mem), mem;
          Consolidate();
          AllocatedSame(C, C1);
          AllocatedSame(C1, C);
          UntouchedThen(C1, C1, m0, m1, mem);
          UntouchedLess(C1, C, m0, mem);
        }
        assert Neighbourhood(C0, top0, brk, x, y, size);
      }
    }

    // What the release of a block above 72 bytes leaves: it makes a run of s bytes from x with its
    // free neighbours.
    ghost predicate Freed(p: int, C0: Chunks, top0: int, fast0: seq<seq<int>>, fastChunks0: bool)
      requires p in C0
      reads this
    {
      exists x, s :: Neighbourhood(C0, top0, brk, p, x, s) &&
        if s >= 131072 then !fastChunks && forall j | 0 <= j < |fast| :: fast[j] == []
        else fast == fast0 && fastChunks == fastChunks0 && Joined(C, top, lists, top0, Next(C0, p), x, s)
    }

    // A client stores a word inside its own block.
    method Write(x: int, w: int, v: int)
      requires Valid() && x in Live(C) && x + 8 <= w < x + Live(C)[x] + SIZE && w % 4 == 0
      modifies this`mem
      ensures Valid() && mem == old(mem)[w := v]
      ensures OthersUntouched(C, x, old(mem), mem)
    {
      hide PlaceOk, TagsOk, TopOk, RingsOk, MembersOk, SortOk, MapOk, ChainsOk, FastOk, Settled;
      ClientWrite(av, base, top, brk, C, mem, lists, fastbins, fast, x, w, v);
      mem := mem[w := v];
    }

    constructor (av: int, heapStart: int, heapEnd: int)
      requires 0 < av && av + 768 <= heapStart <= heapEnd < WORD - 8192
      requires heapStart % 8 == 0 || heapEnd % 4096 == 0
      ensures Valid() && Untried() && Live(C) == map[] && brk == heapStart && lastRemainder == 0
      ensures this.av == av && this.heapStart == heapStart && this.heapEnd == heapEnd
    {
      this.av, this.heapStart, this.heapEnd := av, heapStart, heapEnd;
      brk, mem, maxFast, anyChunks, fastChunks := heapStart, map[], 0, false, false;
      fastbins, binmap := seq(NFASTBINS, _ => 0), seq(4, _ => NoBits());
      top, lastRemainder, base, C := 0, 0, 0, map[];
      lists, fast := [], [];
    }
  }
}