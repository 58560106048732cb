// The invariant that ties the words of memory to the chunks, bins and fastbins they encode.
module HeapInvariant {
  import opened HeapRings
  import opened HeapLayout
  import opened BinIndex
  import opened Words

  const NFASTBINS := 10
  const SIZE := 4       // offset of the size word

  // bin_at(i), repositioned so that its fd and bk words are bins[2i] and bins[2i+1]
  function Hdr(av: int, i: int): int {
    av + 8 * (i - 1)
  }

  function Bit(b: bool): int {
    if b then 1 else 0
  }

  // ---- Place: the chunks tile the arena, above the bin headers

  ghost predicate PlaceOk(av: int, base: int, top: int, end: int, C: Chunks) {
    && 0 <= av && av + 768 <= base
    && Aligned(top) && Aligned(end) && top + MINSIZE <= end
    && Shape(C, base, top)
  }

  // ---- Tags: size words and footers; `raw` holds chunks whose tags are still to be written

  ghost predicate HeadOk(m: Mem, C: Chunks, a: int)
    requires a in C
  {
    Rd(m, a + SIZE) == C[a].size + Bit(C[a].prevInUse)
  }

  ghost predicate FootOk(m: Mem, C: Chunks, a: int)
    requires a in C
  {
    Rd(m, Next(C, a)) == C[a].size
  }

  ghost predicate TagsOk(m: Mem, C: Chunks, raw: set<int>) {
    && (forall a {:trigger HeadOk(m, C, a)} | a in C && a !in raw :: HeadOk(m, C, a))
    && (forall a {:trigger FootOk(m, C, a)} | a in C && a !in raw && C[a].kind.Binned() :: FootOk(m, C, a))
  }

  ghost predicate TopOk(m: Mem, top: int, end: int) {
    Rd(m, top + SIZE) == end - top + 1
  }

  // ---- Bins: the rings of the 95 bins, and which chunks are in them

  ghost predicate RingAt(m: Mem, av: int, i: int, L: seq<int>) {
    Nodes(av, Hdr(av, i), L) && Ring(m, Hdr(av, i), L)
  }

  ghost predicate RingsOk(m: Mem, av: int, lists: seq<seq<int>>) {
    && |lists| == NBINS
    && forall i {:trigger RingAt(m, av, i, lists[i])} | 1 <= i < NBINS :: RingAt(m, av, i, lists[i])
  }

  ghost predicate BinMember(C: Chunks, i: int, x: int) {
    x in C && C[x].kind == Free(i)
  }

  ghost predicate MembersOk(C: Chunks, lists: seq<seq<int>>) {
    && |lists| == NBINS
    && (forall i, x | 1 <= i < NBINS && x in lists[i] :: BinMember(C, i, x))
    && (forall x | x in C && C[x].kind.Binned() ::
          1 <= C[x].kind.bin < NBINS && x in lists[C[x].kind.bin])
  }

  ghost predicate NotSmaller(C: Chunks, x: int, y: int) {
    x in C && y in C && C[x].size >= C[y].size
  }

  // Largest first along fd.
  ghost predicate SortedBin(C: Chunks, L: seq<int>) {
    forall j, k {:trigger NotSmaller(C, L[j], L[k])} | 0 <= j < k < |L| :: NotSmaller(C, L[j], L[k])
  }

  // Bins 2.. hold the sizes of their class in order, and are marked when not empty.
  ghost predicate SortOk(C: Chunks, lists: seq<seq<int>>) {
    && |lists| == NBINS
    && (forall x | x in C && C[x].kind.Binned() && C[x].kind.bin != 1 :: C[x].kind.bin == BinOf(C[x].size))
    && (forall i {:trigger SortedBin(C, lists[i])} | 2 <= i < NBINS :: SortedBin(C, lists[i]))
  }

  ghost predicate MapOk(lists: seq<seq<int>>, binmap: seq<Word>) {
    && |lists| == NBINS && |binmap| == 4
    && (forall i | 2 <= i < NBINS && lists[i] != [] :: binmap[i / 32][i % 32])
    && (forall j | 0 <= j < 32 :: !binmap[3][j])
  }

  // ---- Fastbins: singly linked lists of equal-sized chunks

  ghost predicate Chain(m: Mem, p: int, L: seq<int>)
    decreases |L|
  {
    if L == [] then p == 0 else p == L[0] && p != 0 && Chain(m, Rd(m, p + FD), L[1..])
  }

  ghost predicate ChainsOk(m: Mem, fastbins: seq<int>, fast: seq<seq<int>>) {
    && |fastbins| == |fast| == NFASTBINS
    && forall j {:trigger fast[j]} | 0 <= j < NFASTBINS :: Chain(m, fastbins[j], fast[j])
  }

  ghost predicate FastMember(C: Chunks, j: int, x: int) {
    x in C && C[x].kind == Fast(j)
  }

  ghost predicate FastOk(C: Chunks, fast: seq<seq<int>>) {
    && |fast| == NFASTBINS
    && (forall j {:trigger fast[j]} | 0 <= j < NFASTBINS :: NoDup(fast[j]))
    && (forall j, x | 0 <= j < NFASTBINS && x in fast[j] :: FastMember(C, j, x))
    && (forall x | x in C && C[x].kind.Fast? ::
          && 0 <= C[x].kind.fb < NFASTBINS && x in fast[C[x].kind.fb]
          && C[x].size == 16 + 8 * C[x].kind.fb)
  }

  // ---- Words that belong to nobody else

  // Word w carries no tag, no fastbin link and no byte of a live block.
  ghost predicate NeutralFor(C: Chunks, w: int, a: int)
    requires a in C
  {
    && w != a + SIZE
    && (C[a].kind.Binned() ==> w != Next(C, a))
    && (C[a].kind.Fast? ==> w != a + FD)
    && (C[a].kind.Used? ==> w < a + 8 || a + C[a].size + SIZE <= w)
  }

  ghost predicate Neutral(C: Chunks, top: int, w: int) {
    w != top + SIZE && forall a {:trigger NeutralFor(C, w, a)} | a in C :: NeutralFor(C, w, a)
  }

  lemma HeaderWordsNeutral(av: int, base: int, top: int, end: int, C: Chunks, x: int)
    requires PlaceOk(av, base, top, end, C) && x < av + 756
    ensures Neutral(C, top, x + FD) && Neutral(C, top, x + BK)
  {}

  lemma LinkWordNeutral(av: int, base: int, top: int, end: int, C: Chunks, x: int, o: int)
    requires PlaceOk(av, base, top, end, C) && x in C && C[x].kind.Free? && o in {FD, BK}
    ensures Neutral(C, top, x + o)
  {
    Below(C, base, top, x);
    forall a | a in C ensures NeutralFor(C, x + o, a) {
      assert Next(C, a) == top || Next(C, a) in C;
      assert ApartAt(C, top, a);
    }
  }

  // The bytes of live blocks, as the words their callers may use.
  ghost predicate Untouched(C: Chunks, m: Mem, m': Mem) {
    forall a, w | a in C && C[a].kind.Used? && a + 8 <= w < a + C[a].size + SIZE :: Rd(m', w) == Rd(m, w)
  }

  lemma {:induction false} ChainFrame(m: Mem, m': Mem, p: int, L: seq<int>)
    requires Chain(m, p, L)
    requires forall x | x in L :: Rd(m', x + FD) == Rd(m, x + FD)
    ensures Chain(m', p, L)
    decreases |L|
  {
    if L != [] {
      assert L[0] in L && forall x | x in L[1..] :: x in L;
      ChainFrame(m, m', Rd(m, p + FD), L[1..]);
    }
  }

  // Two neutral words at most change.
  ghost predicate NeutralChange(m: Mem, m': Mem, C: Chunks, top: int) {
    forall w | Rd(m', w) != Rd(m, w) :: Neutral(C, top, w)
  }

  lemma NeutralTags(m: Mem, m': Mem, C: Chunks, top: int, end: int, raw: set<int>)
    requires NeutralChange(m, m', C, top) && TagsOk(m, C, raw) && TopOk(m, top, end)
    ensures TagsOk(m', C, raw) && TopOk(m', top, end)
  {
    forall a | a in C && a !in raw ensures HeadOk(m', C, a) {
      assert HeadOk(m, C, a);
      assert !NeutralFor(C, a + SIZE, a);
    }
    forall a | a in C && a !in raw && C[a].kind.Binned() ensures FootOk(m', C, a) {
      assert FootOk(m, C, a);
      assert !NeutralFor(C, Next(C, a), a);
    }
  }

  lemma NeutralBlocks(m: Mem, m': Mem, C: Chunks, top: int)
    requires NeutralChange(m, m', C, top)
    ensures Untouched(C, m, m')
  {
    forall a, w | a in C && C[a].kind.Used? && a + 8 <= w < a + C[a].size + SIZE
      ensures Rd(m', w) == Rd(m, w)
    {
      assert !NeutralFor(C, w, a);
    }
  }

  lemma NeutralChains(m: Mem, m': Mem, C: Chunks, top: int, fastbins: seq<int>, fast: seq<seq<int>>)
    requires NeutralChange(m, m', C, top) && ChainsOk(m, fastbins, fast) && FastOk(C, fast)
    ensures ChainsOk(m', fastbins, fast)
  {
    forall j | 0 <= j < NFASTBINS ensures Chain(m', fastbins[j], fast[j]) {
      forall x | x in fast[j] ensures Rd(m', x + FD) == Rd(m, x + FD) {
        assert FastMember(C, j, x);
        assert !NeutralFor(C, x + FD, x);
      }
      ChainFrame(m, m', fastbins[j], fast[j]);
    }
  }
}
