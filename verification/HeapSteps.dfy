// The elementary steps of malloc and free, and what each of them keeps.
module HeapSteps {
  import opened HeapRings
  import opened HeapLayout
  import opened BinIndex
  import opened HeapInvariant
  import opened Words

  // ---- Bin membership

  lemma RingMember(C: Chunks, lists: seq<seq<int>>, i: int, k: int)
    requires MembersOk(C, lists) && 1 <= i < NBINS && 0 <= k < |lists[i]|
    ensures BinMember(C, i, lists[i][k])
  {
    assert lists[i][k] in lists[i];
  }

  // Any node of the ring of bin i.
  lemma RingNode(av: int, base: int, top: int, end: int, C: Chunks, m: Mem, lists: seq<seq<int>>, i: int, k: int)
    requires PlaceOk(av, base, top, end, C) && RingsOk(m, av, lists) && MembersOk(C, lists) && 1 <= i < NBINS
    ensures IsNode(av, At(Hdr(av, i), lists[i], k))
    ensures Neutral(C, top, At(Hdr(av, i), lists[i], k) + FD) && Neutral(C, top, At(Hdr(av, i), lists[i], k) + BK)
  {
    assert RingAt(m, av, i, lists[i]);
    var x := At(Hdr(av, i), lists[i], k);
    if 0 <= k < |lists[i]| {
      RingMember(C, lists, i, k);
      LinkWordNeutral(av, base, top, end, C, x, FD);
      LinkWordNeutral(av, base, top, end, C, x, BK);
    } else {
      HeaderWordsNeutral(av, base, top, end, C, x);
    }
  }

  lemma DisjointLists(C: Chunks, lists: seq<seq<int>>, i: int, j: int, x: int)
    requires MembersOk(C, lists) && 1 <= i < NBINS && 1 <= j < NBINS && i != j && x in lists[i]
    ensures x !in lists[j]
  {
    assert BinMember(C, i, x);
    assert x in lists[j] ==> BinMember(C, j, x);
  }

  // The words that link p between bck and fwd.
  function LinkWords(p: int, bck: int, fwd: int): set<int> {
    {p + FD, p + BK, bck + FD, fwd + BK}
  }

  lemma NodeWords(av: int, x: int, y: int)
    requires IsNode(av, x) && IsNode(av, y) && x != y
    ensures x - y != 4 && y - x != 4
  {}

  // Writing link words of one ring, or of a chunk in no list, keeps every other ring.
  lemma OtherRing(av: int, m: Mem, m': Mem, h: int, L: seq<int>, p: int, bck: int, fwd: int)
    requires Nodes(av, h, L) && Ring(m, h, L)
    requires IsNode(av, p) && IsNode(av, bck) && IsNode(av, fwd)
    requires p != h && p !in L && bck != h && bck !in L && fwd != h && fwd !in L
    requires SameOutside(m, m', LinkWords(p, bck, fwd))
    ensures Ring(m', h, L)
  {
    forall k | -1 <= k < |L|
      ensures At(h, L, k) + FD !in LinkWords(p, bck, fwd) && At(h, L, k) + BK !in LinkWords(p, bck, fwd)
    {
      var z := At(h, L, k);
      assert z == h || z in L;
      assert z != p && z != bck && z != fwd;
      NodeWords(av, z, p);
      NodeWords(av, z, bck);
      NodeWords(av, z, fwd);
    }
    RingFrame(av, m, m', h, L, LinkWords(p, bck, fwd));
  }

  lemma OtherRings(av: int, base: int, top: int, end: int, C: Chunks, m: Mem, m': Mem, lists: seq<seq<int>>,
                   i: int, p: int, k1: int, k2: int, j: int)
    requires PlaceOk(av, base, top, end, C) && RingsOk(m, av, lists) && MembersOk(C, lists)
    requires 1 <= i < NBINS && 1 <= j < NBINS && i != j
    requires p in C && p !in lists[j]
    requires SameOutside(m, m', LinkWords(p, At(Hdr(av, i), lists[i], k1), At(Hdr(av, i), lists[i], k2)))
    ensures RingAt(m', av, j, lists[j])
  {
    var bck, fwd := At(Hdr(av, i), lists[i], k1), At(Hdr(av, i), lists[i], k2);
    assert RingAt(m, av, j, lists[j]);
    RingNode(av, base, top, end, C, m, lists, i, k1);
    RingNode(av, base, top, end, C, m, lists, i, k2);
    NotInOther(av, base, top, end, C, m, lists, i, j, k1);
    NotInOther(av, base, top, end, C, m, lists, i, j, k2);
    OtherRing(av, m, m', Hdr(av, j), lists[j], p, bck, fwd);
  }

  lemma NotInOther(av: int, base: int, top: int, end: int, C: Chunks, m: Mem, lists: seq<seq<int>>, i: int, j: int, k: int)
    requires PlaceOk(av, base, top, end, C) && RingsOk(m, av, lists) && MembersOk(C, lists)
    requires 1 <= i < NBINS && 1 <= j < NBINS && i != j
    ensures At(Hdr(av, i), lists[i], k) != Hdr(av, j) && At(Hdr(av, i), lists[i], k) !in lists[j]
  {
    if 0 <= k < |lists[i]| {
      RingMember(C, lists, i, k);
      DisjointLists(C, lists, i, j, lists[i][k]);
    } else {
      assert forall x | x in lists[j] :: BinMember(C, j, x);
    }
  }

  // ---- Unlink: a chunk leaves its bin; it is free but in no list

  function BckOf(av: int, lists: seq<seq<int>>, i: int, k: int): int
    requires 0 <= i < |lists|
  {
    At(Hdr(av, i), lists[i], k - 1)
  }

  function FwdOf(av: int, lists: seq<seq<int>>, i: int, k: int): int
    requires 0 <= i < |lists|
  {
    At(Hdr(av, i), lists[i], k + 1)
  }

  lemma UnlinkRings(av: int, base: int, top: int, end: int, C: Chunks, m: Mem, lists: seq<seq<int>>, i: int, k: int)
    requires PlaceOk(av, base, top, end, C) && RingsOk(m, av, lists) && MembersOk(C, lists)
    requires 1 <= i < NBINS && 0 <= k < |lists[i]|
    ensures RingsOk(Unlinked(m, BckOf(av, lists, i, k), FwdOf(av, lists, i, k)), av, lists[i := RemoveAt(lists[i], k)])
    ensures |lists| == NBINS
    ensures BckOf(av, lists, i, k) == Rd(m, lists[i][k] + BK) && FwdOf(av, lists, i, k) == Rd(m, lists[i][k] + FD)
  {
    hide PlaceOk, MembersOk, Nodes, Ring, NoDup;
    var x := lists[i][k];
    var m' := Unlinked(m, BckOf(av, lists, i, k), FwdOf(av, lists, i, k));
    var lists' := lists[i := RemoveAt(lists[i], k)];
    assert RingAt(m, av, i, lists[i]);
    RingRemove(av, m, Hdr(av, i), lists[i], k);
    RingMember(C, lists, i, k);
    assert SameOutside(m, m', LinkWords(x, BckOf(av, lists, i, k), FwdOf(av, lists, i, k)));
    forall j | 1 <= j < NBINS ensures RingAt(m', av, j, lists'[j]) {
      if j != i {
        DisjointLists(C, lists, i, j, x);
        OtherRings(av, base, top, end, C, m, m', lists, i, x, k - 1, k + 1, j);
      }
    }
  }

  lemma RemoveKeepsOthers(L: seq<int>, k: int, x: int)
    requires 0 <= k < |L| && x in L && x != L[k]
    ensures x in RemoveAt(L, k)
  {
    var j :| 0 <= j < |L| && L[j] == x;
    assert RemoveAt(L, k)[if j < k then j else j - 1] == x;
  }

  lemma UnlinkMembers(av: int, C: Chunks, lists: seq<seq<int>>, i: int, k: int)
    requires MembersOk(C, lists) && 1 <= i < NBINS && 0 <= k < |lists[i]| && NoDup(lists[i])
    ensures BinMember(C, i, lists[i][k]) && |lists| == NBINS
    ensures MembersOk(SetKind(C, lists[i][k], Free(0)), lists[i := RemoveAt(lists[i], k)])
  {
    var x := lists[i][k];
    RingMember(C, lists, i, k);
    var C', lists' := SetKind(C, x, Free(0)), lists[i := RemoveAt(lists[i], k)];
    forall j, y | 1 <= j < NBINS && y in lists'[j] ensures BinMember(C', j, y) {
      assert y in lists[j];
      assert BinMember(C, j, y);
      if j == i { assert x !in RemoveAt(lists[i], k); }
    }
    forall y | y in C' && C'[y].kind.Binned()
      ensures 1 <= C'[y].kind.bin < NBINS && y in lists'[C'[y].kind.bin]
    {
      if C[y].kind.bin == i { RemoveKeepsOthers(lists[i], k, y); }
    }
  }

  lemma SortedAfterRemove(C: Chunks, L: seq<int>, k: int)
    requires SortedBin(C, L) && 0 <= k < |L|
    ensures SortedBin(C, RemoveAt(L, k))
  {
    var R := RemoveAt(L, k);
    forall i, j | 0 <= i < j < |R| ensures NotSmaller(C, R[i], R[j]) {
      assert NotSmaller(C, L[if i < k then i else i + 1], L[if j < k then j else j + 1]);
    }
  }

  // Sizes decide the order, not states.
  lemma SortedSameSizes(C: Chunks, C': Chunks, L: seq<int>)
    requires SortedBin(C, L) && forall x | x in L :: x in C && x in C' && C'[x].size == C[x].size
    ensures SortedBin(C', L)
  {
    forall i, j | 0 <= i < j < |L| ensures NotSmaller(C', L[i], L[j]) {
      assert NotSmaller(C, L[i], L[j]);
    }
  }

  lemma UnlinkSort(C: Chunks, lists: seq<seq<int>>, i: int, k: int)
    requires MembersOk(C, lists) && SortOk(C, lists)
    requires 1 <= i < NBINS && 0 <= k < |lists[i]| && lists[i][k] in C
    ensures SortOk(SetKind(C, lists[i][k], Free(0)), lists[i := RemoveAt(lists[i], k)])
  {
    var C', lists' := SetKind(C, lists[i][k], Free(0)), lists[i := RemoveAt(lists[i], k)];
    forall j | 2 <= j < NBINS ensures SortedBin(C', lists'[j]) {
      assert SortedBin(C, lists[j]);
      if j == i { SortedAfterRemove(C, lists[i], k); }
      assert forall x | x in lists'[j] :: BinMember(C, j, x);
      SortedSameSizes(C, C', lists'[j]);
    }
  }

  lemma UnlinkNeutral(av: int, base: int, top: int, end: int, C: Chunks, m: Mem, lists: seq<seq<int>>, i: int, k: int)
    requires PlaceOk(av, base, top, end, C) && RingsOk(m, av, lists) && MembersOk(C, lists)
    requires 1 <= i < NBINS && 0 <= k < |lists[i]|
    ensures NeutralChange(m, Unlinked(m, BckOf(av, lists, i, k), FwdOf(av, lists, i, k)), C, top)
  {
    RingNode(av, base, top, end, C, m, lists, i, k - 1);
    RingNode(av, base, top, end, C, m, lists, i, k + 1);
  }

  // Changing the list of a chunk that is free before and after.
  lemma FreeKindTags(m: Mem, C: Chunks, raw: set<int>, x: int, kind: Kind)
    requires TagsOk(m, C, raw) && x in C && C[x].kind.Free?
    requires kind == Free(0) || (kind.Free? && (x in raw || FootOk(m, C, x)))
    ensures TagsOk(m, SetKind(C, x, kind), raw)
  {
    var C' := SetKind(C, x, kind);
    forall a | a in C' && a !in raw ensures HeadOk(m, C', a) {
      assert HeadOk(m, C, a);
    }
    forall a | a in C' && a !in raw && C'[a].kind.Binned() ensures FootOk(m, C', a) {
      assert a != x ==> FootOk(m, C, a);
      assert Next(C', a) == Next(C, a);
    }
  }

  // ---- Link: a free chunk in no list enters bin i at position k

  lemma NotListed(av: int, base: int, top: int, end: int, C: Chunks, lists: seq<seq<int>>, i: int, x: int)
    requires PlaceOk(av, base, top, end, C) && MembersOk(C, lists) && 1 <= i < NBINS && BinMember(C, 0, x)
    ensures x !in lists[i] && IsNode(av, x) && x != Hdr(av, i)
  {
    assert forall y | y in lists[i] :: BinMember(C, i, y);
  }

  lemma LinkRings(av: int, base: int, top: int, end: int, C: Chunks, m: Mem, lists: seq<seq<int>>, i: int, k: int, x: int)
    requires PlaceOk(av, base, top, end, C) && RingsOk(m, av, lists) && MembersOk(C, lists)
    requires 1 <= i < NBINS && 0 <= k <= |lists[i]| && BinMember(C, 0, x)
    ensures
      var m' := LinkBetween(m, x, At(Hdr(av, i), lists[i], k - 1), At(Hdr(av, i), lists[i], k));
      RingsOk(m', av, lists[i := InsertAt(lists[i], k, x)])
  {
    hide MembersOk, Nodes, Ring, NoDup, Shape;
    var bck, fwd := At(Hdr(av, i), lists[i], k - 1), At(Hdr(av, i), lists[i], k);
    var m' := LinkBetween(m, x, bck, fwd);
    var lists' := lists[i := InsertAt(lists[i], k, x)];
    assert RingAt(m, av, i, lists[i]);
    NotListed(av, base, top, end, C, lists, i, x);
    RingInsert(av, m, Hdr(av, i), lists[i], k, x);
    assert SameOutside(m, m', LinkWords(x, bck, fwd));
    forall j | 1 <= j < NBINS ensures RingAt(m', av, j, lists'[j]) {
      if j != i {
        NotListed(av, base, top, end, C, lists, j, x);
        OtherRings(av, base, top, end, C, m, m', lists, i, x, k - 1, k, j);
      }
    }
  }

  lemma LinkNeutral(av: int, base: int, top: int, end: int, C: Chunks, m: Mem, lists: seq<seq<int>>, i: int, k: int, x: int)
    requires PlaceOk(av, base, top, end, C) && RingsOk(m, av, lists) && MembersOk(C, lists)
    requires 1 <= i < NBINS && BinMember(C, 0, x)
    ensures NeutralChange(m, LinkBetween(m, x, At(Hdr(av, i), lists[i], k - 1), At(Hdr(av, i), lists[i], k)), C, top)
  {
    RingNode(av, base, top, end, C, m, lists, i, k - 1);
    RingNode(av, base, top, end, C, m, lists, i, k);
    LinkWordNeutral(av, base, top, end, C, x, FD);
    LinkWordNeutral(av, base, top, end, C, x, BK);
  }

  lemma LinkMembers(C: Chunks, lists: seq<seq<int>>, i: int, k: int, x: int)
    requires MembersOk(C, lists) && 1 <= i < NBINS && 0 <= k <= |lists[i]| && BinMember(C, 0, x)
    ensures MembersOk(SetKind(C, x, Free(i)), lists[i := InsertAt(lists[i], k, x)])
  {
    var C', lists' := SetKind(C, x, Free(i)), lists[i := InsertAt(lists[i], k, x)];
    assert InsertAt(lists[i], k, x)[k] == x;
    forall j, y | 1 <= j < NBINS && y in lists'[j] ensures BinMember(C', j, y) {
      if y in lists[j] {
        assert BinMember(C, j, y);
      }
    }
    forall y | y in C' && C'[y].kind.Binned()
      ensures 1 <= C'[y].kind.bin < NBINS && y in lists'[C'[y].kind.bin]
    {
      if y != x { InsertKeepsOthers(lists[C[y].kind.bin], if C[y].kind.bin == i then k else 0, x, y); }
    }
  }

  lemma InsertKeepsOthers(L: seq<int>, k: int, x: int, y: int)
    requires 0 <= k <= |L| && y in L
    ensures y in InsertAt(L, k, x)
  {
    var j :| 0 <= j < |L| && L[j] == y;
    assert InsertAt(L, k, x)[if j < k then j else j + 1] == y;
  }

  // Position k of L is in size order for x.
  lemma MembersIn(C: Chunks, lists: seq<seq<int>>, i: int)
    requires MembersOk(C, lists) && 1 <= i < NBINS
    ensures |lists| == NBINS && forall j | 0 <= j < |lists[i]| :: lists[i][j] in C
  {
    forall j | 0 <= j < |lists[i]| ensures lists[i][j] in C {
      assert BinMember(C, i, lists[i][j]);
    }
  }

  ghost predicate Fits(C: Chunks, L: seq<int>, k: int, x: int) {
    && 0 <= k <= |L|
    && (forall j | 0 <= j < k :: NotSmaller(C, L[j], x))
    && (forall j | k <= j < |L| :: NotSmaller(C, x, L[j]))
  }

  lemma SortedAfterInsert(C: Chunks, L: seq<int>, k: int, x: int)
    requires SortedBin(C, L) && Fits(C, L, k, x)
    ensures SortedBin(C, InsertAt(L, k, x))
  {
    var R := InsertAt(L, k, x);
    forall i, j | 0 <= i < j < |R| ensures NotSmaller(C, R[i], R[j]) {
      if i != k && j != k {
        assert NotSmaller(C, L[if i < k then i else i - 1], L[if j < k then j else j - 1]);
      }
    }
  }

  lemma LinkSort(C: Chunks, lists: seq<seq<int>>, i: int, k: int, x: int)
    requires MembersOk(C, lists) && SortOk(C, lists) && BinMember(C, 0, x)
    requires 1 <= i < NBINS && 0 <= k <= |lists[i]|
    requires i != 1 ==> i == BinOf(C[x].size) && Fits(C, lists[i], k, x)
    ensures SortOk(SetKind(C, x, Free(i)), lists[i := InsertAt(lists[i], k, x)])
  {
    var C', lists' := SetKind(C, x, Free(i)), lists[i := InsertAt(lists[i], k, x)];
    forall j | 2 <= j < NBINS ensures SortedBin(C', lists'[j]) {
      assert SortedBin(C, lists[j]);
      if j == i { SortedAfterInsert(C, lists[i], k, x); }
      assert forall y | y in lists[j] :: BinMember(C, j, y);
      SortedSameSizes(C, C', lists'[j]);
    }
  }

  // ---- Writes to size words and footers

  // The size word of a chunk or of top, or the footer of a free chunk
  ghost predicate TagWord(C: Chunks, top: int, a: int, w: int) {
    ((a in C || a == top) && w == a + SIZE) || (a in C && C[a].kind.Free? && w == Next(C, a))
  }

  lemma TagWordNotLink(av: int, base: int, top: int, end: int, C: Chunks, a: int, w: int, z: int)
    requires PlaceOk(av, base, top, end, C) && TagWord(C, top, a, w)
    requires z in C || z < av + 756
    ensures w != z + FD && w != z + BK
  {
    if a in C { assert Next(C, a) == top || Next(C, a) in C; }
    if z in C { Below(C, base, top, z); }
  }

  lemma TagWriteRings(av: int, base: int, top: int, end: int, C: Chunks, m: Mem, lists: seq<seq<int>>, a: int, w: int, v: int)
    requires PlaceOk(av, base, top, end, C) && RingsOk(m, av, lists) && MembersOk(C, lists)
    requires TagWord(C, top, a, w)
    ensures RingsOk(m[w := v], av, lists)
  {
    forall j | 1 <= j < NBINS ensures RingAt(m[w := v], av, j, lists[j]) {
      var h, L := Hdr(av, j), lists[j];
      assert RingAt(m, av, j, L);
      forall k | -1 <= k < |L| ensures At(h, L, k) + FD !in {w} && At(h, L, k) + BK !in {w} {
        if k >= 0 { RingMember(C, lists, j, k); }
        TagWordNotLink(av, base, top, end, C, a, w, At(h, L, k));
      }
      RingFrame(av, m, m[w := v], h, L, {w});
    }
  }

  lemma TagWriteChains(av: int, base: int, top: int, end: int, C: Chunks, m: Mem,
                       fastbins: seq<int>, fast: seq<seq<int>>, a: int, w: int, v: int)
    requires PlaceOk(av, base, top, end, C) && ChainsOk(m, fastbins, fast) && FastOk(C, fast)
    requires TagWord(C, top, a, w)
    ensures ChainsOk(m[w := v], fastbins, fast)
  {
    forall j | 0 <= j < NFASTBINS ensures Chain(m[w := v], fastbins[j], fast[j]) {
      forall x | x in fast[j] ensures Rd(m[w := v], x + FD) == Rd(m, x + FD) {
        assert FastMember(C, j, x);
        TagWordNotLink(av, base, top, end, C, a, w, x);
      }
      ChainFrame(m, m[w := v], fastbins[j], fast[j]);
    }
  }

  lemma TagWriteBlocks(av: int, base: int, top: int, end: int, C: Chunks, m: Mem, a: int, w: int, v: int)
    requires PlaceOk(av, base, top, end, C) && TagWord(C, top, a, w)
    ensures Untouched(C, m, m[w := v])
  {
    forall b, u | b in C && C[b].kind.Used? && b + 8 <= u < b + C[b].size + SIZE
      ensures Rd(m[w := v], u) == Rd(m, u)
    {
      TagWordNotPayload(av, base, top, end, C, a, w, b, u);
    }
  }

  lemma TagWordNotPayload(av: int, base: int, top: int, end: int, C: Chunks, a: int, w: int, b: int, u: int)
    requires PlaceOk(av, base, top, end, C) && TagWord(C, top, a, w)
    requires b in C && C[b].kind.Used? && b + 8 <= u < b + C[b].size + SIZE
    ensures w != u
  {
    Below(C, base, top, b);
    if a in C {
      assert Next(C, a) == top || Next(C, a) in C;
      Below(C, base, top, a);
    }
  }

  // The flags of free and used chunks change only by the writes below.

  // Next(x)'s size word is rewritten with the flag that the new state of x calls for.
  lemma FlagWriteTags(av: int, base: int, top: int, end: int, C: Chunks, m: Mem, raw: set<int>, x: int, kind: Kind)
    requires PlaceOk(av, base, top, end, C) && TagsOk(m, C, raw) && TopOk(m, top, end)
    requires x in C && Next(C, x) in C && kind in {Used, Free(0)}
    ensures
      var n := Next(C, x);
      var m' := m[n + SIZE := C[n].size + Bit(!kind.Free?)];
      TagsOk(m', Turn(C, x, kind), raw) && TopOk(m', top, end)
  {
    var n := Next(C, x);
    var C' := Turn(C, x, kind);
    var m' := m[n + SIZE := C[n].size + Bit(!kind.Free?)];
    TurnReads(C, base, top, x, kind);
    forall a | a in C' && a !in raw ensures HeadOk(m', C', a) {
      assert HeadOk(m, C, a);
    }
    forall a | a in C' && a !in raw && C'[a].kind.Binned() ensures FootOk(m', C', a) {
      assert FootOk(m, C, a);
      assert Next(C', a) == Next(C, a);
      assert ApartAt(C, top, a);
      assert Next(C, a) in C;
    }
    assert n < top;
  }

  // set_head and set_foot of a free chunk whose tags were stale
  lemma WriteTags(av: int, base: int, top: int, end: int, C: Chunks, m: Mem, raw: set<int>, x: int)
    requires PlaceOk(av, base, top, end, C) && TagsOk(m, C, raw) && TopOk(m, top, end)
    requires x in C && C[x].kind.Free? && C[x].prevInUse && Next(C, x) in C
    ensures
      var m' := m[x + SIZE := C[x].size + 1][Next(C, x) := C[x].size];
      TagsOk(m', C, raw - {x}) && TopOk(m', top, end)
  {
    var m' := m[x + SIZE := C[x].size + 1][Next(C, x) := C[x].size];
    forall a | a in C && a !in raw - {x} ensures HeadOk(m', C, a) {
      if a != x { assert HeadOk(m, C, a); }
    }
    forall a | a in C && a !in raw - {x} && C[a].kind.Binned() ensures FootOk(m', C, a) {
      if a != x {
        assert FootOk(m, C, a);
        assert ApartAt(C, top, a);
        assert Next(C, a) in C;
      }
    }
  }

  // set_head of a used chunk
  lemma WriteHead(av: int, base: int, top: int, end: int, C: Chunks, m: Mem, raw: set<int>, x: int)
    requires PlaceOk(av, base, top, end, C) && TagsOk(m, C, raw) && TopOk(m, top, end)
    requires x in C && C[x].kind.Used?
    ensures
      var m' := m[x + SIZE := C[x].size + Bit(C[x].prevInUse)];
      TagsOk(m', C, raw - {x}) && TopOk(m', top, end)
  {
    var m' := m[x + SIZE := C[x].size + Bit(C[x].prevInUse)];
    forall a | a in C && a !in raw - {x} ensures HeadOk(m', C, a) {
      if a != x { assert HeadOk(m, C, a); }
    }
    forall a | a in C && a !in raw - {x} && C[a].kind.Binned() ensures FootOk(m', C, a) {
      assert FootOk(m, C, a);
      assert ApartAt(C, top, a);
      assert Next(C, a) in C;
    }
  }

  // Split and Merge only rearrange chunks in no list, whose tags become stale.
  lemma SplitTags(av: int, base: int, top: int, end: int, C: Chunks, m: Mem, raw: set<int>, x: int, nb: int)
    requires PlaceOk(av, base, top, end, C) && TagsOk(m, C, raw) && BinMember(C, 0, x)
    requires GoodSize(nb) && nb + MINSIZE <= C[x].size
    ensures TagsOk(m, Split(C, x, nb), raw + {x, x + nb})
  {
    SplitTiled(C, base, top, x, nb);
    var C' := Split(C, x, nb);
    forall a | a in C' && a !in raw + {x, x + nb} ensures HeadOk(m, C', a) {
      assert HeadOk(m, C, a);
    }
    forall a | a in C' && a !in raw + {x, x + nb} && C'[a].kind.Binned() ensures FootOk(m, C', a) {
      assert FootOk(m, C, a) && Next(C', a) == Next(C, a);
    }
  }

  lemma MergeTags(av: int, base: int, top: int, end: int, C: Chunks, m: Mem, raw: set<int>, x: int)
    requires PlaceOk(av, base, top, end, C) && TagsOk(m, C, raw) && BinMember(C, 0, x)
    requires Next(C, x) in C && BinMember(C, 0, Next(C, x))
    ensures TagsOk(m, Merge(C, x), raw + {x} - {Next(C, x)})
  {
    MergeTiled(C, base, top, x);
    var C' := Merge(C, x);
    forall a | a in C' && a !in raw + {x} - {Next(C, x)} ensures HeadOk(m, C', a) {
      assert HeadOk(m, C, a);
    }
    forall a | a in C' && a !in raw + {x} - {Next(C, x)} && C'[a].kind.Binned() ensures FootOk(m, C', a) {
      assert FootOk(m, C, a) && Next(C', a) == Next(C, a);
    }
  }

  // The chunk that borders top, together with top, becomes the new top.
  lemma PopTopTags(av: int, base: int, top: int, end: int, C: Chunks, m: Mem, raw: set<int>, x: int)
    requires PlaceOk(av, base, top, end, C) && TagsOk(m, C, raw) && BinMember(C, 0, x) && Next(C, x) == top
    ensures
      var m' := m[x + SIZE := end - x + 1];
      TagsOk(m', C - {x}, raw - {x}) && TopOk(m', x, end)
  {
    var C', m' := C - {x}, m[x + SIZE := end - x + 1];
    forall a | a in C' && a !in raw - {x} ensures HeadOk(m', C', a) {
      assert HeadOk(m, C, a);
    }
    forall a | a in C' && a !in raw - {x} && C'[a].kind.Binned() ensures FootOk(m', C', a) {
      assert FootOk(m, C, a) && Next(C', a) == Next(C, a);
      assert ApartAt(C, top, a);
      assert Next(C, a) in C;
    }
  }

  // nb bytes at the start of top become a used chunk.
  lemma PushTopTags(av: int, base: int, top: int, end: int, C: Chunks, m: Mem, raw: set<int>, nb: int)
    requires PlaceOk(av, base, top, end, C) && TagsOk(m, C, raw) && GoodSize(nb) && top !in raw
    ensures
      var m' := m[top + SIZE := nb + 1][top + nb + SIZE := end - top - nb + 1];
      TagsOk(m', PushTop(C, top, nb), raw) && TopOk(m', top + nb, end)
  {
    var C' := PushTop(C, top, nb);
    var m' := m[top + SIZE := nb + 1][top + nb + SIZE := end - top - nb + 1];
    forall a | a in C' && a !in raw ensures HeadOk(m', C', a) {
      if a != top {
        assert HeadOk(m, C, a);
        Below(C, base, top, a);
      }
    }
    forall a | a in C' && a !in raw && C'[a].kind.Binned() ensures FootOk(m', C', a) {
      assert FootOk(m, C, a) && Next(C', a) == Next(C, a);
      Below(C, base, top, a);
    }
  }

  // ---- Lists only depend on the size and state of listed chunks

  ghost predicate Listed(C: Chunks, x: int) {
    x in C && (C[x].kind.Binned() || C[x].kind.Fast?)
  }

  ghost predicate SameListed(C: Chunks, C': Chunks) {
    && (forall x {:trigger Listed(C, x)} | Listed(C, x) :: Listed(C', x))
    && (forall x {:trigger Listed(C', x)} | Listed(C', x) ::
          x in C && C'[x].kind == C[x].kind && C'[x].size == C[x].size)
  }

  lemma SameListedKeeps(C: Chunks, C': Chunks, lists: seq<seq<int>>, fast: seq<seq<int>>)
    requires SameListed(C, C') && MembersOk(C, lists) && SortOk(C, lists) && FastOk(C, fast)
    ensures MembersOk(C', lists) && SortOk(C', lists) && FastOk(C', fast)
  {
    forall i, x | 1 <= i < NBINS && x in lists[i] ensures BinMember(C', i, x) {
      assert BinMember(C, i, x) && Listed(C, x) && Listed(C', x);
    }
    forall x | x in C' && C'[x].kind.Binned()
      ensures 1 <= C'[x].kind.bin < NBINS && x in lists[C'[x].kind.bin]
    {
      assert Listed(C', x);
    }
    SameListedSort(C, C', lists);
    SameListedFast(C, C', fast);
  }

  lemma SameListedSort(C: Chunks, C': Chunks, lists: seq<seq<int>>)
    requires SameListed(C, C') && MembersOk(C, lists) && SortOk(C, lists)
    ensures SortOk(C', lists)
  {
    forall x | x in C' && C'[x].kind.Binned() && C'[x].kind.bin != 1
      ensures C'[x].kind.bin == BinOf(C'[x].size)
    {
      assert Listed(C', x);
    }
    forall i | 2 <= i < NBINS ensures SortedBin(C', lists[i]) {
      assert SortedBin(C, lists[i]);
      forall x | x in lists[i] ensures x in C && x in C' && C'[x].size == C[x].size {
        assert BinMember(C, i, x) && Listed(C, x) && Listed(C', x);
      }
      SortedSameSizes(C, C', lists[i]);
    }
  }

  lemma SameListedFast(C: Chunks, C': Chunks, fast: seq<seq<int>>)
    requires SameListed(C, C') && FastOk(C, fast)
    ensures FastOk(C', fast)
  {
    forall j, x | 0 <= j < NFASTBINS && x in fast[j] ensures FastMember(C', j, x) {
      assert FastMember(C, j, x) && Listed(C, x) && Listed(C', x);
    }
    forall x | x in C' && C'[x].kind.Fast?
      ensures
        && 0 <= C'[x].kind.fb < NFASTBINS && x in fast[C'[x].kind.fb]
        && C'[x].size == 16 + 8 * C'[x].kind.fb
    {
      assert Listed(C', x);
    }
  }

  // ---- The remaining parts of the invariant under Unlink and Link

  lemma RingsNoDup(m: Mem, av: int, lists: seq<seq<int>>, i: int)
    requires RingsOk(m, av, lists) && 1 <= i < NBINS
    ensures |lists| == NBINS && NoDup(lists[i])
  {
    assert RingAt(m, av, i, lists[i]);
  }

  lemma UnlinkMap(lists: seq<seq<int>>, binmap: seq<Word>, i: int, k: int)
    requires MapOk(lists, binmap) && 1 <= i < NBINS && 0 <= k < |lists[i]|
    ensures MapOk(lists[i := RemoveAt(lists[i], k)], binmap)
  {}

  lemma LinkMap(lists: seq<seq<int>>, binmap: seq<Word>, i: int, k: int, x: int)
    requires MapOk(lists, binmap) && 1 <= i < NBINS && 0 <= k <= |lists[i]|
    requires i != 1 ==> binmap[i / 32][i % 32]
    ensures MapOk(lists[i := InsertAt(lists[i], k, x)], binmap)
  {}

  lemma UnlinkPlace(av: int, base: int, top: int, end: int, C: Chunks, x: int)
    requires PlaceOk(av, base, top, end, C) && x in C && C[x].kind.Free?
    ensures PlaceOk(av, base, top, end, SetKind(C, x, Free(0)))
  {
    SetKindKeeps(C, base, top, x, Free(0));
  }

  // x may be entered in a bin: its neighbours are in use and it does not border top.
  ghost predicate CanBin(C: Chunks, top: int, x: int) {
    x in C && C[x].prevInUse && Next(C, x) != top && Next(C, x) in C && !C[Next(C, x)].kind.Free?
  }

  lemma LinkPlace(av: int, base: int, top: int, end: int, C: Chunks, x: int, i: int)
    requires PlaceOk(av, base, top, end, C) && BinMember(C, 0, x) && CanBin(C, top, x)
    ensures PlaceOk(av, base, top, end, SetKind(C, x, Free(i)))
  {
    SetKindKeeps(C, base, top, x, Free(i));
  }

  lemma UnlistedFast(C: Chunks, fast: seq<seq<int>>, x: int, kind: Kind)
    requires FastOk(C, fast) && x in C && C[x].kind.Free? && kind.Free?
    ensures FastOk(SetKind(C, x, kind), fast)
  {
    var C' := SetKind(C, x, kind);
    forall j, y | 0 <= j < NFASTBINS && y in fast[j] ensures FastMember(C', j, y) {
      assert FastMember(C, j, y);
    }
  }

  lemma UnlinkFast(C: Chunks, fast: seq<seq<int>>, x: int)
    requires FastOk(C, fast) && x in C && C[x].kind.Free?
    ensures FastOk(SetKind(C, x, Free(0)), fast)
  {
    UnlistedFast(C, fast, x, Free(0));
  }

  // The footer of x is not a link word.
  lemma LinkKeepsFoot(av: int, base: int, top: int, end: int, C: Chunks, m: Mem, lists: seq<seq<int>>,
                      i: int, k: int, x: int, raw: set<int>)
    requires PlaceOk(av, base, top, end, C) && RingsOk(m, av, lists) && MembersOk(C, lists)
    requires 1 <= i < NBINS && BinMember(C, 0, x) && (x in raw || FootOk(m, C, x))
    ensures
      var m' := LinkBetween(m, x, At(Hdr(av, i), lists[i], k - 1), At(Hdr(av, i), lists[i], k));
      x in raw || FootOk(m', C, x)
  {
    if x !in raw {
      var w := Next(C, x);
      FreeFootNotLink(av, base, top, end, C, m, lists, i, k - 1, x);
      FreeFootNotLink(av, base, top, end, C, m, lists, i, k, x);
      TagWordNotLink(av, base, top, end, C, x, w, x);
    }
  }

  lemma FreeFootNotLink(av: int, base: int, top: int, end: int, C: Chunks, m: Mem, lists: seq<seq<int>>, i: int, k: int, x: int)
    requires PlaceOk(av, base, top, end, C) && RingsOk(m, av, lists) && MembersOk(C, lists)
    requires 1 <= i < NBINS && BinMember(C, 0, x)
    ensures
      var z := At(Hdr(av, i), lists[i], k);
      Next(C, x) != z + FD && Next(C, x) != z + BK
  {
    if 0 <= k < |lists[i]| { RingMember(C, lists, i, k); }
    TagWordNotLink(av, base, top, end, C, x, Next(C, x), At(Hdr(av, i), lists[i], k));
  }

  // ---- Reading tags

  function ChunkSize(w: int): int {
    w - w % 4
  }

  predicate PrevInUse(w: int) {
    w % 2 == 1
  }

  // chunksize and prev_inuse decode the size word of any chunk whose tags are in place.
  lemma HeadReads(av: int, base: int, top: int, end: int, C: Chunks, m: Mem, raw: set<int>, a: int)
    requires PlaceOk(av, base, top, end, C) && TagsOk(m, C, raw) && a in C && a !in raw
    ensures ChunkSize(Rd(m, a + SIZE)) == C[a].size && PrevInUse(Rd(m, a + SIZE)) == C[a].prevInUse
    ensures Rd(m, a + SIZE) - Rd(m, a + SIZE) % 2 == C[a].size
    ensures GoodSize(C[a].size) && Next(C, a) <= top && 768 <= av + 768 <= a && Aligned(a)
    ensures Next(C, a) == top || Next(C, a) in C
  {
    assert HeadOk(m, C, a);
  }

  lemma TopReads(av: int, base: int, top: int, end: int, C: Chunks, m: Mem)
    requires PlaceOk(av, base, top, end, C) && TopOk(m, top, end)
    ensures ChunkSize(Rd(m, top + SIZE)) == end - top && PrevInUse(Rd(m, top + SIZE)) && top !in C
    ensures MINSIZE <= end - top && Aligned(top) && Aligned(end) && 768 <= av + 768 <= base <= top
  {
    assert base <= top && top !in C;
    hide Shape;
  }

  // No chunk is free without being in a bin.
  ghost predicate Settled(C: Chunks) {
    forall a | a in C && C[a].kind.Free? :: C[a].kind.Binned()
  }

  ghost predicate SettledBut(C: Chunks, x: int) {
    forall a | a in C && a != x && C[a].kind.Free? :: C[a].kind.Binned()
  }

  lemma SettledKind(C: Chunks, x: int, kind: Kind)
    requires Settled(C) && x in C && (kind.Free? ==> kind.Binned())
    ensures Settled(SetKind(C, x, kind))
  {}

  // The neighbours of a binned chunk are in use, and top is not one of them.
  lemma FreeNeighbours(C: Chunks, base: int, top: int, x: int)
    requires Shape(C, base, top) && Settled(C) && x in C && C[x].kind.Free?
    ensures CanBin(C, top, x) && CanBin(SetKind(C, x, Free(0)), top, x)
  {
    assert ApartAt(C, top, x);
    assert Next(C, x) in C;
    if x != base {
      var a := PrevExists(C, base, top, base, x);
      assert ApartAt(C, top, a);
    }
  }

  // A clear PREV_INUSE flag leads to a binned chunk whose footer gives its size.
  lemma PrevFree(C: Chunks, base: int, top: int, m: Mem, p: int) returns (q: int)
    requires Shape(C, base, top) && Settled(C) && TagsOk(m, C, {}) && p in C && !C[p].prevInUse
    ensures q in C && Next(C, q) == p && C[q].kind.Binned() && Rd(m, p) == C[q].size
  {
    q := PrevExists(C, base, top, base, p);
    assert FootOk(m, C, q);
  }

  // The bit read by inuse_bit_at_offset tells whether `next` is free.
  lemma NextInUse(av: int, base: int, top: int, end: int, C: Chunks, m: Mem, raw: set<int>, next: int)
    requires PlaceOk(av, base, top, end, C) && TagsOk(m, C, raw) && TopOk(m, top, end)
    requires next in C && Next(C, next) !in raw
    requires C[next].kind.Free? ==> C[next].kind.Binned()
    ensures PrevInUse(Rd(m, Next(C, next) + SIZE)) == !C[next].kind.Free?
  {
    assert ApartAt(C, top, next);
    if Next(C, next) != top {
      HeadReads(av, base, top, end, C, m, raw, Next(C, next));
    } else {
      TopReads(av, base, top, end, C, m);
    }
  }

  // ---- Live blocks

  ghost function Live(C: Chunks): map<int, int> {
    map a | a in C && C[a].kind.Used? :: C[a].size
  }

  lemma LiveSetKind(C: Chunks, x: int, kind: Kind)
    requires x in C && !C[x].kind.Used? && !kind.Used?
    ensures Live(SetKind(C, x, kind)) == Live(C)
  {}

  lemma LiveTurn(av: int, base: int, top: int, end: int, C: Chunks, x: int, kind: Kind)
    requires PlaceOk(av, base, top, end, C) && x in C
    ensures kind.Used? ==> Live(Turn(C, x, kind)) == Live(C)[x := C[x].size]
    ensures !kind.Used? ==> Live(Turn(C, x, kind)) == Live(C) - {x}
  {
    TurnReads(C, base, top, x, kind);
    LiveOfTurn(C, Turn(C, x, kind), x, kind);
  }

  lemma LiveOfTurn(C: Chunks, C': Chunks, x: int, kind: Kind)
    requires x in C && C'.Keys == C.Keys
    requires forall y | y in C :: C'[y].size == C[y].size && C'[y].kind == (if y == x then kind else C[y].kind)
    ensures kind.Used? ==> Live(C') == Live(C)[x := C[x].size]
    ensures !kind.Used? ==> Live(C') == Live(C) - {x}
  {
    var L := if kind.Used? then Live(C)[x := C[x].size] else Live(C) - {x};
    forall a ensures a in Live(C') <==> a in L {
      assert a in C' <==> a in C;
    }
    forall a | a in L ensures Live(C')[a] == L[a] {
      assert a in C;
    }
  }

  lemma LiveMerge(C: Chunks, x: int)
    requires x in C && Next(C, x) in C && !C[x].kind.Used? && !C[Next(C, x)].kind.Used?
    ensures Live(Merge(C, x)) == Live(C)
  {}

  lemma LiveSplit(av: int, base: int, top: int, end: int, C: Chunks, x: int, nb: int)
    requires PlaceOk(av, base, top, end, C) && x in C && GoodSize(nb) && nb + MINSIZE <= C[x].size && !C[x].kind.Used?
    ensures Live(Split(C, x, nb)) == Live(C)[x := nb]
  {
    SplitTiled(C, base, top, x, nb);
  }

  lemma LivePushTop(av: int, base: int, top: int, end: int, C: Chunks, nb: int)
    requires PlaceOk(av, base, top, end, C)
    ensures Live(PushTop(C, top, nb)) == Live(C)[top := nb]
  {}

  lemma LiveDrop(C: Chunks, x: int)
    requires x in C && !C[x].kind.Used?
    ensures Live(C - {x}) == Live(C)
  {}

  // Blocks that stay live are covered by the change of any step that kept them live.
  lemma UntouchedLess(C: Chunks, C': Chunks, m: Mem, m': Mem)
    requires Untouched(C, m, m') && Keeps(C', C)
    ensures Untouched(C', m, m')
  {
    forall a, w | a in C' && C'[a].kind.Used? && a + 8 <= w < a + C'[a].size + SIZE
      ensures Rd(m', w) == Rd(m, w)
    {
      assert a in Live(C');
    }
  }

  // Every block of C is a block of C'.
  ghost predicate Keeps(C: Chunks, C': Chunks) {
    forall a | a in Live(C) :: a in Live(C') && Live(C')[a] == Live(C)[a]
  }

  lemma UntouchedThen(C: Chunks, C': Chunks, m: Mem, m1: Mem, m2: Mem)
    requires Untouched(C, m, m1) && Untouched(C', m1, m2) && Keeps(C, C')
    ensures Untouched(C, m, m2)
  {
    forall a, w | a in C && C[a].kind.Used? && a + 8 <= w < a + C[a].size + SIZE
      ensures Rd(m2, w) == Rd(m, w)
    {
      assert a in Live(C);
    }
  }

  // ---- State changes that keep every listed chunk

  lemma TurnListed(C: Chunks, base: int, top: int, x: int, kind: Kind)
    requires Tiled(C, base, top) && x in C && kind in {Used, Free(0)} && C[x].kind in {Used, Free(0)}
    ensures SameListed(C, Turn(C, x, kind))
  {
    TurnReads(C, base, top, x, kind);
  }

  lemma MergeListed(C: Chunks, base: int, top: int, x: int)
    requires Tiled(C, base, top) && BinMember(C, 0, x) && Next(C, x) in C && BinMember(C, 0, Next(C, x))
    ensures SameListed(C, Merge(C, x))
  {}

  lemma SplitListed(C: Chunks, base: int, top: int, x: int, nb: int)
    requires Tiled(C, base, top) && BinMember(C, 0, x) && GoodSize(nb) && nb + MINSIZE <= C[x].size
    ensures SameListed(C, Split(C, x, nb))
  {
    SplitTiled(C, base, top, x, nb);
  }

  lemma DropListed(C: Chunks, x: int)
    requires BinMember(C, 0, x)
    ensures SameListed(C, C - {x})
  {}

  lemma PushTopListed(av: int, base: int, top: int, end: int, C: Chunks, nb: int)
    requires PlaceOk(av, base, top, end, C)
    ensures SameListed(C, PushTop(C, top, nb))
  {}

  // ---- Whole-state forms of the steps above

  lemma TurnPlace(av: int, base: int, top: int, end: int, C: Chunks, x: int, kind: Kind)
    requires PlaceOk(av, base, top, end, C) && x in C && !kind.Binned()
    ensures PlaceOk(av, base, top, end, Turn(C, x, kind))
  {
    TurnKeeps(C, base, top, x, kind);
  }

  lemma TurnKeepsLists(av: int, base: int, top: int, end: int, C: Chunks, lists: seq<seq<int>>, fast: seq<seq<int>>, x: int, kind: Kind)
    requires PlaceOk(av, base, top, end, C) && MembersOk(C, lists) && SortOk(C, lists) && FastOk(C, fast)
    requires x in C && kind in {Used, Free(0)} && C[x].kind in {Used, Free(0)}
    ensures MembersOk(Turn(C, x, kind), lists) && SortOk(Turn(C, x, kind), lists) && FastOk(Turn(C, x, kind), fast)
  {
    hide MembersOk, SortOk, FastOk;
    TurnListed(C, base, top, x, kind);
    SameListedKeeps(C, Turn(C, x, kind), lists, fast);
  }

  lemma SplitPlace(av: int, base: int, top: int, end: int, C: Chunks, x: int, nb: int)
    requires PlaceOk(av, base, top, end, C) && BinMember(C, 0, x) && GoodSize(nb) && nb + MINSIZE <= C[x].size
    ensures PlaceOk(av, base, top, end, Split(C, x, nb))
  {
    SplitKeeps(C, base, top, x, nb);
  }

  lemma SplitCanBin(av: int, base: int, top: int, end: int, C: Chunks, x: int, nb: int)
    requires PlaceOk(av, base, top, end, C) && BinMember(C, 0, x) && GoodSize(nb) && nb + MINSIZE <= C[x].size
    requires CanBin(C, top, x)
    ensures CanBin(Split(C, x, nb), top, x + nb) && BinMember(Split(C, x, nb), 0, x + nb)
    ensures Split(C, x, nb)[x] == Chunk(nb, true, Used) && x != x + nb
  {
    SplitTiled(C, base, top, x, nb);
  }

  lemma SplitKeepsLists(av: int, base: int, top: int, end: int, C: Chunks, lists: seq<seq<int>>, fast: seq<seq<int>>, x: int, nb: int)
    requires PlaceOk(av, base, top, end, C) && MembersOk(C, lists) && SortOk(C, lists) && FastOk(C, fast)
    requires BinMember(C, 0, x) && GoodSize(nb) && nb + MINSIZE <= C[x].size
    ensures MembersOk(Split(C, x, nb), lists) && SortOk(Split(C, x, nb), lists) && FastOk(Split(C, x, nb), fast)
  {
    hide MembersOk, SortOk, FastOk;
    SplitListed(C, base, top, x, nb);
    SameListedKeeps(C, Split(C, x, nb), lists, fast);
  }

  // A write to a size word or a footer touches no list and no live block.
  lemma TagWriteKeeps(av: int, base: int, top: int, end: int, C: Chunks, m: Mem, lists: seq<seq<int>>,
                      fastbins: seq<int>, fast: seq<seq<int>>, a: int, w: int, v: int)
    requires PlaceOk(av, base, top, end, C) && RingsOk(m, av, lists) && MembersOk(C, lists)
    requires ChainsOk(m, fastbins, fast) && FastOk(C, fast) && TagWord(C, top, a, w)
    ensures RingsOk(m[w := v], av, lists) && ChainsOk(m[w := v], fastbins, fast) && Untouched(C, m, m[w := v])
  {
    hide PlaceOk, RingsOk, MembersOk, ChainsOk, FastOk, TagWord, Untouched;
    TagWriteRings(av, base, top, end, C, m, lists, a, w, v);
    TagWriteChains(av, base, top, end, C, m, fastbins, fast, a, w, v);
    TagWriteBlocks(av, base, top, end, C, m, a, w, v);
  }

  // ---- Coalescing a released chunk with its neighbours

  lemma NoFreeFoot(C: Chunks, top: int, m: Mem, raw: set<int>, x: int)
    requires TagsOk(m, C, raw) && x in C && x !in raw && C[x].kind.Binned()
    ensures FootOk(m, C, x)
  {}

  lemma MergePlace(av: int, base: int, top: int, end: int, C: Chunks, x: int)
    requires PlaceOk(av, base, top, end, C) && BinMember(C, 0, x) && Next(C, x) in C && BinMember(C, 0, Next(C, x))
    ensures PlaceOk(av, base, top, end, Merge(C, x)) && BinMember(Merge(C, x), 0, x)
    ensures Merge(C, x)[x].prevInUse == C[x].prevInUse && x != Next(C, x)
    ensures Next(Merge(C, x), x) == Next(C, Next(C, x)) && Next(C, x) < Next(C, Next(C, x))
    ensures forall y | y in C && y != x && y != Next(C, x) :: y in Merge(C, x) && Merge(C, x)[y] == C[y]
    ensures forall y | y in Merge(C, x) && y != x :: y in C && y != Next(C, x)
  {
    MergeKeeps(C, base, top, x);
    MergeTiled(C, base, top, x);
  }

  lemma MergeKeepsLists(av: int, base: int, top: int, end: int, C: Chunks, lists: seq<seq<int>>, fast: seq<seq<int>>, x: int)
    requires PlaceOk(av, base, top, end, C) && MembersOk(C, lists) && SortOk(C, lists) && FastOk(C, fast)
    requires BinMember(C, 0, x) && Next(C, x) in C && BinMember(C, 0, Next(C, x))
    ensures MembersOk(Merge(C, x), lists) && SortOk(Merge(C, x), lists) && FastOk(Merge(C, x), fast)
    ensures Live(Merge(C, x)) == Live(C)
  {
    hide MembersOk, SortOk, FastOk;
    MergeListed(C, base, top, x);
    SameListedKeeps(C, Merge(C, x), lists, fast);
    LiveMerge(C, x);
  }

  lemma PopTopPlace(av: int, base: int, top: int, end: int, C: Chunks, x: int)
    requires PlaceOk(av, base, top, end, C) && x in C && Next(C, x) == top && C[x].prevInUse
    ensures PlaceOk(av, base, x, end, C - {x})
  {
    PopTopKeeps(C, base, top, x);
  }

  lemma DropKeepsLists(C: Chunks, lists: seq<seq<int>>, fast: seq<seq<int>>, x: int)
    requires MembersOk(C, lists) && SortOk(C, lists) && FastOk(C, fast) && BinMember(C, 0, x)
    ensures MembersOk(C - {x}, lists) && SortOk(C - {x}, lists) && FastOk(C - {x}, fast)
    ensures Live(C - {x}) == Live(C)
  {
    hide MembersOk, SortOk, FastOk;
    DropListed(C, x);
    SameListedKeeps(C, C - {x}, lists, fast);
    LiveDrop(C, x);
  }

  lemma UntouchedSame(C: Chunks, m: Mem)
    ensures Untouched(C, m, m)
  {}

  lemma PrevBinned(av: int, base: int, top: int, end: int, C: Chunks, m: Mem, p: int) returns (q: int)
    requires PlaceOk(av, base, top, end, C) && Settled(C) && TagsOk(m, C, {}) && p in C && !C[p].prevInUse
    ensures q in C && Next(C, q) == p && C[q].kind.Binned() && Rd(m, p) == C[q].size && q < p
  {
    q := PrevFree(C, base, top, m, p);
  }

  lemma BinnedNeighbours(av: int, base: int, top: int, end: int, C: Chunks, x: int)
    requires PlaceOk(av, base, top, end, C) && Settled(C) && x in C && C[x].kind.Free?
    ensures CanBin(C, top, x) && CanBin(SetKind(C, x, Free(0)), top, x)
  {
    FreeNeighbours(C, base, top, x);
  }

  lemma BinPosition(C: Chunks, lists: seq<seq<int>>, x: int) returns (i: int, k: int)
    requires MembersOk(C, lists) && x in C && C[x].kind.Binned()
    ensures 1 <= i < NBINS && |lists| == NBINS && 0 <= k < |lists[i]| && lists[i][k] == x
  {
    i := C[x].kind.bin;
    k :| 0 <= k < |lists[i]| && lists[i][k] == x;
  }

  // No free chunk ends at p.
  ghost predicate NoneBefore(C: Chunks, p: int) {
    forall q | q in C && C[q].kind.Free? :: Next(C, q) != p
  }

  // The free space behind p: top, or a free chunk.
  ghost function Behind(C: Chunks, top: int, end: int, p: int): int
    requires p in C
  {
    var n := Next(C, p);
    if n == top then end - top else if n in C && C[n].kind.Free? then C[n].size else 0
  }

  // Block p and its free neighbours, or top, make a run of s bytes from x.
  ghost predicate Neighbourhood(C: Chunks, top: int, end: int, p: int, x: int, s: int) {
    && p in C && (if x == p then NoneBefore(C, p) else x in C && C[x].kind.Free? && Next(C, x) == p)
    && s == p - x + C[p].size + Behind(C, top, end, p)
  }

  lemma FlagMeans(av: int, base: int, top: int, end: int, C: Chunks, p: int)
    requires PlaceOk(av, base, top, end, C) && p in C && C[p].prevInUse
    ensures NoneBefore(C, p)
  {}

  ghost predicate RightOk(C: Chunks, top: int, p: int) {
    p in C && Next(C, p) != top && Next(C, p) in C && !C[Next(C, p)].kind.Free?
  }

  lemma RawMore(m: Mem, C: Chunks, raw: set<int>, raw': set<int>)
    requires TagsOk(m, C, raw) && raw <= raw'
    ensures TagsOk(m, C, raw')
  {
    forall a | a in C && a !in raw' ensures HeadOk(m, C, a) { assert HeadOk(m, C, a); }
    forall a | a in C && a !in raw' && C[a].kind.Binned() ensures FootOk(m, C, a) { assert FootOk(m, C, a); }
  }

  lemma TurnFacts(av: int, base: int, top: int, end: int, C: Chunks, p: int, kind: Kind)
    requires PlaceOk(av, base, top, end, C) && p in C
    ensures Turn(C, p, kind).Keys == C.Keys && Next(C, p) != p
    ensures forall x | x in C ::
              && Turn(C, p, kind)[x].size == C[x].size
              && Turn(C, p, kind)[x].kind == (if x == p then kind else C[x].kind)
              && (x != Next(C, p) ==> Turn(C, p, kind)[x].prevInUse == C[x].prevInUse)
  {
    TurnReads(C, base, top, p, kind);
  }

  // A chunk that borders top has no flag after it.
  lemma TurnTopTags(m: Mem, C: Chunks, raw: set<int>, av: int, base: int, top: int, end: int, p: int)
    requires PlaceOk(av, base, top, end, C) && TagsOk(m, C, raw) && p in C && Next(C, p) == top
    ensures TagsOk(m, Turn(C, p, Free(0)), raw)
  {
    var C' := Turn(C, p, Free(0));
    assert top !in C;
    forall a | a in C' && a !in raw ensures HeadOk(m, C', a) { assert HeadOk(m, C, a); }
    forall a | a in C' && a !in raw && C'[a].kind.Binned() ensures FootOk(m, C', a) {
      assert FootOk(m, C, a);
    }
  }

  lemma FirstAndLast(m: Mem, av: int, lists: seq<seq<int>>, i: int)
    requires RingsOk(m, av, lists) && 1 <= i < NBINS
    ensures |lists| == NBINS
    ensures Rd(m, Hdr(av, i) + FD) == At(Hdr(av, i), lists[i], 0)
    ensures Rd(m, Hdr(av, i) + BK) == At(Hdr(av, i), lists[i], |lists[i]| - 1)
  {
    var h, L := Hdr(av, i), lists[i];
    assert RingAt(m, av, i, L);
    assert LinkOk(m, h, L, -1) && LinkOk(m, h, L, |L| - 1);
  }

  // The right neighbour of a binned chunk is in use.
  lemma RightNeighbour(av: int, base: int, top: int, end: int, C: Chunks, n: int, x: int, p: int)
    requires PlaceOk(av, base, top, end, C) && n in C && C[n].kind.Binned() && x <= p < n
    requires forall a | a in C && a != x && a != p && C[a].kind.Free? :: C[a].kind.Binned()
    ensures RightOk(C, top, n) && n < Next(C, n)
  {
    assert ApartAt(C, top, n);
  }

  // ---- Fastbins

  // The chunks of a whole fastbin are taken out of it.
  function UseAll(C: Chunks, L: seq<int>): Chunks {
    map a | a in C :: if a in L then C[a].(kind := Used) else C[a]
  }

  lemma UseAllPlace(av: int, base: int, top: int, end: int, C: Chunks, L: seq<int>)
    requires PlaceOk(av, base, top, end, C) && forall x | x in L :: x in C && !C[x].kind.Free?
    ensures PlaceOk(av, base, top, end, UseAll(C, L))
  {
    var C' := UseAll(C, L);
    hide Aligned;
    assert C'.Keys == C.Keys;
    forall x | x in C' ensures Next(C', x) == top || Next(C', x) in C' { assert Next(C', x) == Next(C, x); }
    forall x | x in C' && Next(C', x) in C' ensures C'[Next(C', x)].prevInUse == !C'[x].kind.Free? {
      assert Next(C', x) == Next(C, x);
    }
    forall x | x in C' ensures ApartAt(C', top, x) {
      assert Next(C', x) == Next(C, x) && ApartAt(C, top, x);
    }
  }

  lemma UseAllTags(m: Mem, C: Chunks, raw: set<int>, L: seq<int>)
    requires TagsOk(m, C, raw)
    ensures TagsOk(m, UseAll(C, L), raw)
  {
    var C' := UseAll(C, L);
    forall a | a in C' && a !in raw ensures HeadOk(m, C', a) { assert HeadOk(m, C, a); }
    forall a | a in C' && a !in raw && C'[a].kind.Binned() ensures FootOk(m, C', a) {
      assert FootOk(m, C, a) && Next(C', a) == Next(C, a);
    }
  }

  lemma UseAllBins(C: Chunks, lists: seq<seq<int>>, L: seq<int>)
    requires MembersOk(C, lists) && SortOk(C, lists) && forall x | x in L :: x in C && !C[x].kind.Free?
    ensures MembersOk(UseAll(C, L), lists) && SortOk(UseAll(C, L), lists)
  {
    var C' := UseAll(C, L);
    forall i, x | 1 <= i < NBINS && x in lists[i] ensures BinMember(C', i, x) { assert BinMember(C, i, x); }
    forall i | 2 <= i < NBINS ensures SortedBin(C', lists[i]) {
      assert SortedBin(C, lists[i]);
      assert forall x | x in lists[i] :: BinMember(C, i, x);
      SortedSameSizes(C, C', lists[i]);
    }
  }

  lemma FastMembers(C: Chunks, fast: seq<seq<int>>, j: int)
    requires FastOk(C, fast) && 0 <= j < NFASTBINS
    ensures |fast| == NFASTBINS && NoDup(fast[j])
    ensures forall x | x in fast[j] :: x in C && C[x].kind == Fast(j)
  {
    assert forall x | x in fast[j] :: FastMember(C, j, x);
  }

  lemma UseAllFast(C: Chunks, fast: seq<seq<int>>, j: int)
    requires FastOk(C, fast) && 0 <= j < NFASTBINS
    ensures FastOk(UseAll(C, fast[j]), fast[j := []])
  {
    var C', fast' := UseAll(C, fast[j]), fast[j := []];
    assert fast'[j] == [];
    forall i | 0 <= i < NFASTBINS ensures NoDup(fast'[i]) { assert NoDup(fast[i]); }
    forall i, x | 0 <= i < NFASTBINS && x in fast'[i] ensures FastMember(C', i, x) {
      assert FastMember(C, i, x);
      assert x in fast[j] ==> FastMember(C, j, x);
    }
  }

  lemma EmptyChain(m: Mem, fastbins: seq<int>, fast: seq<seq<int>>, j: int)
    requires ChainsOk(m, fastbins, fast) && 0 <= j < NFASTBINS
    ensures |fast| == |fastbins| == NFASTBINS && Chain(m, fastbins[j], fast[j])
    ensures ChainsOk(m, fastbins[j := 0], fast[j := []])
  {
    assert fast[j] == fast[j];
    var fast' := fast[j := []];
    forall i | 0 <= i < NFASTBINS ensures Chain(m, fastbins[j := 0][i], fast'[i]) {
      assert Chain(m, fastbins[i], fast[i]);
    }
  }

  // The link of a chunk that waits to be consolidated lies in its own payload.
  lemma PendingChain(av: int, base: int, top: int, end: int, C: Chunks, m: Mem, m': Mem, p: int, L: seq<int>)
    requires PlaceOk(av, base, top, end, C) && Chain(m, p, L) && Untouched(C, m, m')
    requires forall x | x in L :: x in C && C[x].kind.Used?
    ensures Chain(m', p, L)
  {
    ChainFrame(m, m', p, L);
  }

  ghost predicate LiveAre(C: Chunks, L0: map<int, int>, pending: seq<int>) {
    && (forall a :: a in Live(C) <==> a in L0 || a in pending)
    && (forall a | a in L0 :: Live(C)[a] == L0[a])
    && (forall a | a in L0 :: a !in pending)
  }

  lemma UseAllLive(C: Chunks, fast: seq<seq<int>>, j: int)
    requires FastOk(C, fast) && 0 <= j < NFASTBINS
    ensures LiveAre(UseAll(C, fast[j]), Live(C), fast[j])
  {
    FastMembers(C, fast, j);
  }

  lemma LiveAreStep(C: Chunks, C': Chunks, L0: map<int, int>, pending: seq<int>)
    requires LiveAre(C, L0, pending) && pending != [] && NoDup(pending)
    requires Live(C') == Live(C) - {pending[0]}
    ensures LiveAre(C', L0, pending[1..])
  {
    assert forall a :: a in pending <==> a == pending[0] || a in pending[1..];
  }

  lemma LiveAreDone(C: Chunks, L0: map<int, int>)
    requires LiveAre(C, L0, [])
    ensures Live(C) == L0
  {
    forall a ensures a in Live(C) <==> a in L0 {
      assert a in Live(C) <==> a in L0 || a in [];
    }
    assert Live(C).Keys == L0.Keys;
    forall a | a in L0 ensures Live(C)[a] == L0[a] {}
  }

  lemma LiveAreKeeps(C: Chunks, C0: Chunks, pending: seq<int>)
    requires LiveAre(C, Live(C0), pending)
    ensures Keeps(C0, C)
    ensures forall x | x in pending :: x in C && C[x].kind.Used?
  {
    assert forall x | x in pending :: x in Live(C);
  }

  // ---- Top and the system break

  lemma PushTopPlace(av: int, base: int, top: int, end: int, C: Chunks, nb: int)
    requires PlaceOk(av, base, top, end, C) && Settled(C) && GoodSize(nb) && nb + MINSIZE <= end - top
    ensures PlaceOk(av, base, top + nb, end, PushTop(C, top, nb)) && top !in C
  {
    PushTopKeeps(C, base, top, nb);
  }

  lemma PushTopKeepsLists(av: int, base: int, top: int, end: int, C: Chunks, lists: seq<seq<int>>, fast: seq<seq<int>>, nb: int)
    requires PlaceOk(av, base, top, end, C) && MembersOk(C, lists) && SortOk(C, lists) && FastOk(C, fast)
    ensures MembersOk(PushTop(C, top, nb), lists) && SortOk(PushTop(C, top, nb), lists)
    ensures FastOk(PushTop(C, top, nb), fast)
  {
    hide MembersOk, SortOk, FastOk;
    PushTopListed(av, base, top, end, C, nb);
    SameListedKeeps(C, PushTop(C, top, nb), lists, fast);
  }

  lemma TopWriteTags(av: int, base: int, top: int, end: int, C: Chunks, m: Mem, raw: set<int>, v: int)
    requires PlaceOk(av, base, top, end, C) && TagsOk(m, C, raw)
    ensures TagsOk(m[top + SIZE := v], C, raw)
  {
    var m' := m[top + SIZE := v];
    forall a | a in C && a !in raw ensures HeadOk(m', C, a) {
      assert HeadOk(m, C, a);
    }
    forall a | a in C && a !in raw && C[a].kind.Binned() ensures FootOk(m', C, a) {
      assert FootOk(m, C, a);
      Below(C, base, top, a);
    }
  }

  lemma GrowPlace(av: int, base: int, top: int, end: int, end': int, C: Chunks)
    requires PlaceOk(av, base, top, end, C) && end <= end' && Aligned(end' - end)
    ensures PlaceOk(av, base, top, end', C)
  {
    AlignedSum(end, end' - end);
  }

  // ---- Searching

  lemma UnlinkKeepsFoot(av: int, base: int, top: int, end: int, C: Chunks, m: Mem, lists: seq<seq<int>>, i: int, k: int, raw: set<int>)
    requires PlaceOk(av, base, top, end, C) && RingsOk(m, av, lists) && MembersOk(C, lists) && TagsOk(m, C, raw)
    requires 1 <= i < NBINS && 0 <= k < |lists[i]| && lists[i][k] !in raw
    ensures lists[i][k] in C
    ensures FootOk(Unlinked(m, BckOf(av, lists, i, k), FwdOf(av, lists, i, k)), SetKind(C, lists[i][k], Free(0)), lists[i][k])
  {
    var x := lists[i][k];
    RingMember(C, lists, i, k);
    assert FootOk(m, C, x);
    FreeFootNotNode(av, base, top, end, C, m, lists, i, k - 1, x);
    FreeFootNotNode(av, base, top, end, C, m, lists, i, k + 1, x);
  }

  lemma FreeFootNotNode(av: int, base: int, top: int, end: int, C: Chunks, m: Mem, lists: seq<seq<int>>, i: int, k: int, x: int)
    requires PlaceOk(av, base, top, end, C) && RingsOk(m, av, lists) && MembersOk(C, lists)
    requires 1 <= i < NBINS && x in C && C[x].kind.Free?
    ensures
      var z := At(Hdr(av, i), lists[i], k);
      Next(C, x) != z + FD && Next(C, x) != z + BK
  {
    if 0 <= k < |lists[i]| { RingMember(C, lists, i, k); }
    TagWordNotLink(av, base, top, end, C, x, Next(C, x), At(Hdr(av, i), lists[i], k));
  }

  // The sizes of all free chunks.
  ghost function FreeSizes(C: Chunks): map<int, int> {
    map a | a in C && C[a].kind.Free? :: C[a].size
  }

  lemma FreeSize(C: Chunks, x: int)
    requires x in C && C[x].kind.Free?
    ensures x in FreeSizes(C) && FreeSizes(C)[x] == C[x].size
  {}

  // No free chunk that holds nb bytes is smaller than x.
  ghost predicate SmallestFit(C: Chunks, x: int, nb: int) {
    && x in FreeSizes(C) && nb <= FreeSizes(C)[x]
    && forall y | y in FreeSizes(C) && nb <= FreeSizes(C)[y] :: FreeSizes(C)[x] <= FreeSizes(C)[y]
  }

  ghost predicate NoFit(C: Chunks, nb: int) {
    forall y | y in FreeSizes(C) :: FreeSizes(C)[y] < nb
  }

  lemma FreeSizesSetKind(C: Chunks, x: int, kind: Kind)
    requires x in C && C[x].kind.Free? && kind.Free?
    ensures FreeSizes(SetKind(C, x, kind)) == FreeSizes(C) && Live(SetKind(C, x, kind)) == Live(C)
  {}

  lemma SmallBinSize(C: Chunks, base: int, top: int, lists: seq<seq<int>>, i: int, x: int)
    requires Tiled(C, base, top) && MembersOk(C, lists) && SortOk(C, lists) && 2 <= i < NSMALLBINS && x in lists[i]
    ensures x in C && C[x].size == 8 * i
  {
    assert BinMember(C, i, x);
    BinOfRange(C[x].size);
  }

  lemma FitsFront(C: Chunks, base: int, top: int, lists: seq<seq<int>>, x: int)
    requires Tiled(C, base, top) && MembersOk(C, lists) && SortOk(C, lists)
    requires x in C && 2 <= BinOf(C[x].size) < NBINS && C[x].size < MIN_LARGE_SIZE
    ensures Fits(C, lists[BinOf(C[x].size)], 0, x)
  {
    var i := BinOf(C[x].size);
    forall j | 0 <= j < |lists[i]| ensures NotSmaller(C, x, lists[i][j]) {
      SmallBinSize(C, base, top, lists, i, lists[i][j]);
    }
  }

  // The k-th chunk of a large bin is the first that is not larger than x.
  lemma FitsAt(C: Chunks, L: seq<int>, k: int, x: int)
    requires SortedBin(C, L) && x in C && 0 <= k <= |L|
    requires forall j | 0 <= j < k :: NotSmaller(C, L[j], x)
    requires k < |L| ==> NotSmaller(C, x, L[k])
    ensures Fits(C, L, k, x)
  {
    forall j | k <= j < |L| ensures NotSmaller(C, x, L[j]) {
      if j > k { assert NotSmaller(C, L[k], L[j]); }
    }
  }

  // If the last chunk of a sorted bin is not smaller than x, x goes to the end.
  lemma FitsEnd(C: Chunks, L: seq<int>, x: int)
    requires SortedBin(C, L) && x in C && L != [] && NotSmaller(C, L[|L| - 1], x)
    ensures Fits(C, L, |L|, x)
  {
    forall j | 0 <= j < |L| ensures NotSmaller(C, L[j], x) {
      if j < |L| - 1 { assert NotSmaller(C, L[j], L[|L| - 1]); }
    }
  }

  lemma MarkBin(lists: seq<seq<int>>, binmap: seq<Word>, i: int)
    requires MapOk(lists, binmap) && 2 <= i < NBINS
    ensures |binmap| == 4 && MapOk(lists, binmap[i / 32 := binmap[i / 32][i % 32 := true]])
  {
    var w: Word := binmap[i / 32][i % 32 := true];
    var map' := binmap[i / 32 := w];
    forall j | 2 <= j < NBINS && lists[j] != [] ensures map'[j / 32][j % 32] {
      assert binmap[j / 32][j % 32];
    }
  }

  lemma SmallFront(av: int, base: int, top: int, end: int, C: Chunks, lists: seq<seq<int>>, x: int)
    requires PlaceOk(av, base, top, end, C) && MembersOk(C, lists) && SortOk(C, lists)
    requires x in C && 2 <= BinOf(C[x].size) < NBINS && C[x].size < MIN_LARGE_SIZE
    ensures Fits(C, lists[BinOf(C[x].size)], 0, x)
  {
    FitsFront(C, base, top, lists, x);
  }

  // Following fd and bk from the k-th chunk of a bin.
  lemma NodeWalk(m: Mem, av: int, lists: seq<seq<int>>, i: int, k: int)
    requires RingsOk(m, av, lists) && 1 <= i < NBINS && 0 <= k < |lists[i]|
    ensures lists[i][k] != Hdr(av, i)
    ensures Rd(m, lists[i][k] + FD) == At(Hdr(av, i), lists[i], k + 1)
    ensures Rd(m, lists[i][k] + BK) == At(Hdr(av, i), lists[i], k - 1)
  {
    assert RingAt(m, av, i, lists[i]);
    assert LinkOk(m, Hdr(av, i), lists[i], k) && LinkOk(m, Hdr(av, i), lists[i], k - 1);
  }

  // Comparing x's size with the whole size word of the k-th chunk of a bin, flag included.
  lemma NodeSize(av: int, base: int, top: int, end: int, C: Chunks, m: Mem, lists: seq<seq<int>>, i: int, k: int, x: int)
    requires PlaceOk(av, base, top, end, C) && TagsOk(m, C, {}) && MembersOk(C, lists)
    requires 1 <= i < NBINS && 0 <= k < |lists[i]| && x in C
    ensures lists[i][k] in C && C[lists[i][k]].kind == Free(i)
    ensures ChunkSize(Rd(m, lists[i][k] + SIZE)) == C[lists[i][k]].size
    ensures Rd(m, lists[i][k] + SIZE) == C[lists[i][k]].size + if C[lists[i][k]].prevInUse then 1 else 0
    ensures C[x].size + 1 < Rd(m, lists[i][k] + SIZE) ==> C[x].size < C[lists[i][k]].size
    ensures C[x].size + 1 >= Rd(m, lists[i][k] + SIZE) ==> NotSmaller(C, x, lists[i][k]) && C[lists[i][k]].size <= C[x].size
    ensures C[x].size < Rd(m, lists[i][k] + SIZE) ==> NotSmaller(C, lists[i][k], x)
    ensures C[x].size >= Rd(m, lists[i][k] + SIZE) ==> NotSmaller(C, x, lists[i][k])
  {
    RingMember(C, lists, i, k);
    HeadReads(av, base, top, end, C, m, {}, x);
    HeadReads(av, base, top, end, C, m, {}, lists[i][k]);
    assert Aligned(C[x].size) && Aligned(C[lists[i][k]].size);
    hide PlaceOk, TagsOk, MembersOk;
  }

  lemma SortedAt(C: Chunks, lists: seq<seq<int>>, i: int)
    requires SortOk(C, lists) && 2 <= i < NBINS
    ensures SortedBin(C, lists[i])
  {}

  lemma EmptyRing(m: Mem, av: int, lists: seq<seq<int>>, i: int)
    requires RingsOk(m, av, lists) && 1 <= i < NBINS
    ensures Rd(m, Hdr(av, i) + FD) == Hdr(av, i) <==> lists[i] == []
    ensures Rd(m, Hdr(av, i) + BK) == Hdr(av, i) <==> lists[i] == []
  {
    FirstAndLast(m, av, lists, i);
    if lists[i] != [] {
      NodeWalk(m, av, lists, i, 0);
      NodeWalk(m, av, lists, i, |lists[i]| - 1);
    }
  }

  // x, no block of C0, became a block that holds nb bytes and wastes less than MINSIZE.
  ghost predicate Allocated(C0: Chunks, C: Chunks, x: int, nb: int) {
    && x !in Live(C0) && x in C && Aligned(x) && 0 < x
    && Live(C) == Live(C0)[x := C[x].size] && nb <= C[x].size < nb + MINSIZE
  }

  // The flag of x says that the chunk before it is in use.
  ghost predicate FrontInUse(C: Chunks, x: int) {
    x in C && C[x].prevInUse
  }

  lemma AllocatedKeeps(C0: Chunks, C: Chunks, x: int, nb: int)
    requires Allocated(C0, C, x, nb)
    ensures Keeps(C0, C)
  {}

  lemma TakenWhole(av: int, base: int, top: int, end: int, C: Chunks, x: int, nb: int)
    requires PlaceOk(av, base, top, end, C) && Settled(C) && x in C && C[x].kind.Free?
    requires nb <= C[x].size < nb + MINSIZE
    ensures Next(C, x) in C
    ensures
      var C' := Turn(SetKind(C, x, Free(0)), x, Used);
      Settled(C') && Allocated(C, C', x, nb) && FrontInUse(C', x)
  {
    FreeNeighbours(C, base, top, x);
    var C1 := SetKind(C, x, Free(0));
    SetKindKeeps(C, base, top, x, Free(0));
    TurnFacts(av, base, top, end, C1, x, Used);
    LiveTurn(av, base, top, end, C1, x, Used);
    LiveSetKind(C, x, Free(0));
    var C' := Turn(C1, x, Used);
    hide Turn, PlaceOk;
    assert C'[x].size == C[x].size;
  }

  lemma TakenSplit(av: int, base: int, top: int, end: int, C: Chunks, x: int, nb: int)
    requires PlaceOk(av, base, top, end, C) && Settled(C) && x in C && C[x].kind.Free?
    requires GoodSize(nb) && nb + MINSIZE <= C[x].size
    ensures
      var C' := SetKind(Split(SetKind(C, x, Free(0)), x, nb), x + nb, Free(1));
      Settled(C') && Allocated(C, C', x, nb) && FrontInUse(C', x)
  {
    var C1 := SetKind(C, x, Free(0));
    FreeNeighbours(C, base, top, x);
    SetKindKeeps(C, base, top, x, Free(0));
    SplitTiled(C1, base, top, x, nb);
    LiveSplit(av, base, top, end, C1, x, nb);
    LiveSetKind(C, x, Free(0));
    LiveSetKind(Split(C1, x, nb), x + nb, Free(1));
  }

  lemma AllocatedThen(C0: Chunks, C1: Chunks, C: Chunks, x: int, nb: int)
    requires Live(C1) == Live(C0) && Allocated(C1, C, x, nb)
    ensures Allocated(C0, C, x, nb) && Keeps(C0, C1)
  {}

  lemma ExactFit(C0: Chunks, C1: Chunks, x: int, nb: int)
    requires FreeSizes(C0) == FreeSizes(C1) && x in C1 && C1[x].kind.Free? && C1[x].size == nb
    ensures SmallestFit(C0, x, nb)
  {
    assert x in FreeSizes(C1);
  }

  lemma Rebinned(av: int, base: int, top: int, end: int, C: Chunks, x: int, i: int)
    requires PlaceOk(av, base, top, end, C) && Settled(C) && x in C && C[x].kind.Free? && i >= 2
    ensures
      var C' := SetKind(SetKind(C, x, Free(0)), x, Free(i));
      Settled(C') && Live(C') == Live(C) && FreeSizes(C') == FreeSizes(C)
  {
    FreeSizesSetKind(C, x, Free(0));
    FreeSizesSetKind(SetKind(C, x, Free(0)), x, Free(i));
  }

  lemma AllocatedSame(C0: Chunks, C1: Chunks)
    requires Live(C1) == Live(C0)
    ensures Keeps(C0, C1)
  {}

  // Chunk y is too small, or not in the bins lo..hi-1.
  ghost predicate NoneBetween(C: Chunks, lo: int, hi: int, nb: int) {
    forall y | y in C && C[y].kind.Free? && lo <= C[y].kind.bin < hi :: C[y].size < nb
  }

  // The smallest chunk of its sorted bin that fits is the smallest of all that fit.
  lemma SmallestInBin(av: int, base: int, top: int, end: int, C: Chunks, lists: seq<seq<int>>, i: int, k: int, nb: int)
    requires PlaceOk(av, base, top, end, C) && MembersOk(C, lists) && SortOk(C, lists) && Settled(C)
    requires GoodSize(nb) && 2 <= BinOf(nb) <= i < NBINS && 0 <= k < |lists[i]| && lists[1] == []
    requires NoneBetween(C, BinOf(nb), i, nb)
    requires lists[i][k] in C && nb <= C[lists[i][k]].size
    requires forall j | k < j < |lists[i]| :: lists[i][j] in C && C[lists[i][j]].size < nb
    ensures SmallestFit(C, lists[i][k], nb)
  {
    var x := lists[i][k];
    RingMember(C, lists, i, k);
    assert x in FreeSizes(C);
    forall y | y in FreeSizes(C) && nb <= FreeSizes(C)[y] ensures FreeSizes(C)[x] <= FreeSizes(C)[y] {
      assert y in C && C[y].kind.Binned() && C[y].kind.bin != 1;
      SmallerElsewhere(C, lists, i, k, nb, y);
    }
  }

  lemma SmallerElsewhere(C: Chunks, lists: seq<seq<int>>, i: int, k: int, nb: int, y: int)
    requires MembersOk(C, lists) && SortOk(C, lists) && 16 <= nb && 2 <= BinOf(nb) <= i < NBINS && 0 <= k < |lists[i]|
    requires NoneBetween(C, BinOf(nb), i, nb)
    requires BinMember(C, i, lists[i][k]) && nb <= C[lists[i][k]].size
    requires forall j | k < j < |lists[i]| :: lists[i][j] in C && C[lists[i][j]].size < nb
    requires y in C && C[y].kind.Binned() && C[y].kind.bin != 1 && nb <= C[y].size
    ensures C[lists[i][k]].size <= C[y].size
  {
    hide BinOf;
    var x, b := lists[i][k], C[y].kind.bin;
    BinOfMonotone(nb, C[y].size);
    if C[y].size <= C[x].size { BinOfMonotone(C[y].size, C[x].size); }
    if b == i {
      var j :| 0 <= j < |lists[i]| && lists[i][j] == y;
      assert SortedBin(C, lists[i]);
      if j < k { assert NotSmaller(C, lists[i][j], lists[i][k]); }
    }
  }

  // A chunk of a later bin is large enough.
  lemma LaterBinFits(av: int, base: int, top: int, end: int, C: Chunks, lists: seq<seq<int>>, i: int, k: int, nb: int)
    requires PlaceOk(av, base, top, end, C) && MembersOk(C, lists) && SortOk(C, lists)
    requires GoodSize(nb) && 2 <= BinOf(nb) < i < NBINS && 0 <= k < |lists[i]|
    ensures BinMember(C, i, lists[i][k]) && nb < C[lists[i][k]].size
  {
    RingMember(C, lists, i, k);
    if C[lists[i][k]].size <= nb { BinOfMonotone(C[lists[i][k]].size, nb); }
  }

  lemma EmptyBin(C: Chunks, lists: seq<seq<int>>, lo: int, i: int, nb: int)
    requires MembersOk(C, lists) && NoneBetween(C, lo, i, nb) && 1 <= i
    requires i < NBINS ==> lists[i] == []
    ensures NoneBetween(C, lo, i + 1, nb)
  {
    forall y | y in C && C[y].kind.Free? && lo <= C[y].kind.bin < i + 1 ensures C[y].size < nb {
      assert C[y].kind.Binned() ==> C[y].kind.bin < NBINS && y in lists[C[y].kind.bin];
    }
  }

  // A run of clear bits means a run of empty bins.
  lemma ClearBits(C: Chunks, lists: seq<seq<int>>, binmap: seq<Word>, lo: int, block: int, b: int, b': int, nb: int)
    requires MembersOk(C, lists) && MapOk(lists, binmap) && 0 <= block < 4 && 0 <= b <= b' <= 32 && 1 < block * 32 + b
    requires NoneBetween(C, lo, block * 32 + b, nb)
    requires forall j | b <= j < b' :: !binmap[block][j]
    ensures NoneBetween(C, lo, block * 32 + b', nb)
    decreases b' - b
  {
    if b < b' {
      var i := block * 32 + b;
      assert i / 32 == block && i % 32 == b;
      EmptyBin(C, lists, lo, i, nb);
      ClearBits(C, lists, binmap, lo, block, b + 1, b', nb);
    }
  }

  lemma NothingFits(av: int, base: int, top: int, end: int, C: Chunks, lists: seq<seq<int>>, nb: int)
    requires PlaceOk(av, base, top, end, C) && MembersOk(C, lists) && SortOk(C, lists) && Settled(C)
    requires GoodSize(nb) && 2 <= BinOf(nb) && lists[1] == [] && NoneBetween(C, BinOf(nb), NBINS, nb)
    ensures NoFit(C, nb)
  {
    forall y | y in FreeSizes(C) ensures FreeSizes(C)[y] < nb {
      assert C[y].kind.Binned() && C[y].kind.bin != 1;
      if nb <= C[y].size { BinOfMonotone(nb, C[y].size); }
    }
  }

  lemma NoneEmpty(C: Chunks, i: int, nb: int)
    ensures NoneBetween(C, i, i, nb)
  {}

  lemma AllSmall(C: Chunks, lists: seq<seq<int>>, i: int, nb: int)
    requires MembersOk(C, lists) && 1 <= i < NBINS
    requires forall j | -1 < j < |lists[i]| :: lists[i][j] in C && C[lists[i][j]].size < nb
    ensures NoneBetween(C, i, i + 1, nb)
  {
    forall y | y in C && C[y].kind.Free? && i <= C[y].kind.bin < i + 1 ensures C[y].size < nb {
      assert y in lists[i];
    }
  }

  lemma FewerBins(C: Chunks, lo: int, hi: int, nb: int)
    requires NoneBetween(C, lo, hi, nb) && NBINS <= hi
    ensures NoneBetween(C, lo, NBINS, nb)
  {}

  lemma MapSize(lists: seq<seq<int>>, binmap: seq<Word>)
    requires MapOk(lists, binmap)
    ensures |lists| == NBINS && |binmap| == 4
  {}

  // An empty bin may be unmarked.
  lemma UnmarkBin(lists: seq<seq<int>>, binmap: seq<Word>, block: int, b: int)
    requires MapOk(lists, binmap) && 0 <= block < 3 && 0 <= b < 32
    requires block * 32 + b < NBINS && lists[block * 32 + b] == []
    ensures MapOk(lists, binmap[block := binmap[block][b := false]])
  {
    var w: Word := binmap[block][b := false];
    var map' := binmap[block := w];
    forall j | 2 <= j < NBINS && lists[j] != [] ensures map'[j / 32][j % 32] {
      assert binmap[j / 32][j % 32];
    }
  }

  lemma LastWordClear(lists: seq<seq<int>>, binmap: seq<Word>)
    requires MapOk(lists, binmap)
    ensures |binmap| == 4 && forall j | 0 <= j < 32 :: !binmap[3][j]
  {}

  // ---- The empty heap

  function NoBits(): Word {
    seq(32, _ => false)
  }

  lemma EmptyLists(m: Mem, av: int, lists: seq<seq<int>>, fastbins: seq<int>, fast: seq<seq<int>>, binmap: seq<Word>)
    requires lists == seq(NBINS, _ => []) && fastbins == seq(NFASTBINS, _ => 0) && fast == seq(NFASTBINS, _ => [])
    requires binmap == seq(4, _ => NoBits())
    requires forall j | 1 <= j < NBINS :: Rd(m, Hdr(av, j) + FD) == Hdr(av, j) && Rd(m, Hdr(av, j) + BK) == Hdr(av, j)
    ensures RingsOk(m, av, lists) && MembersOk(map[], lists) && SortOk(map[], lists) && MapOk(lists, binmap)
    ensures ChainsOk(m, fastbins, fast) && FastOk(map[], fast)
  {
    forall i | 1 <= i < NBINS ensures RingAt(m, av, i, lists[i]) {
      assert lists[i] == [];
    }
  }

  lemma EmptyArena(av: int, top: int, end: int, m: Mem, v: int)
    requires 0 <= av && av + 768 <= top && Aligned(top) && Aligned(end) && top + MINSIZE <= end
    ensures PlaceOk(av, top, top, end, map[]) && TagsOk(m[top + SIZE := v], map[], {})
  {}

  lemma EmptySettled()
    ensures Settled(map[])
  {}

  lemma NoBlocks(m: Mem, m': Mem)
    ensures Untouched(map[], m, m')
  {}

  lemma BelowTop(av: int, base: int, top: int, end: int, C: Chunks)
    requires PlaceOk(av, base, top, end, C)
    ensures forall y | y in C :: y < top
  {}

  lemma CutFromTop(C0: Chunks, C: Chunks, x: int, nb: int)
    requires C == PushTop(C0, x, nb) && x !in C0 && Aligned(x) && 0 < x && Live(C) == Live(C0)[x := nb]
    ensures Allocated(C0, C, x, nb)
  {}

  // ---- Exact fits of small requests

  // No chunk in a regular bin has exactly nb bytes.
  ghost predicate NoExact(C: Chunks, nb: int) {
    forall y | y in C && C[y].kind.Binned() && C[y].kind.bin != 1 :: C[y].size != nb
  }

  // No free chunk has exactly nb bytes.
  ghost predicate NoneExact(C: Chunks, nb: int) {
    forall y | y in FreeSizes(C) :: FreeSizes(C)[y] != nb
  }

  // x, the remainder of the last split, is the only unsorted chunk; it is large enough to be
  // split again, and no free chunk fits exactly.
  ghost predicate LastOne(C: Chunks, rem: int, x: int, nb: int) {
    && x == rem && nb < MIN_LARGE_SIZE && x in C && C[x].kind == Free(1) && nb + MINSIZE < C[x].size
    && (forall y | y in C && C[y].kind == Free(1) :: y == x) && NoneExact(C, nb)
  }

  lemma LastAlone(C: Chunks, lists: seq<seq<int>>, x: int, rem: int, nb: int)
    requires MembersOk(C, lists) && Settled(C) && lists[1] == [x] && NoExact(C, nb)
    requires x == rem && nb < MIN_LARGE_SIZE && x in C && nb + MINSIZE < C[x].size
    ensures LastOne(C, rem, x, nb)
  {
    assert x in lists[1] && BinMember(C, 1, x);
    forall y | y in C && C[y].kind == Free(1) ensures y == x {
      assert y in lists[1];
    }
    forall y | y in FreeSizes(C) ensures FreeSizes(C)[y] != nb {
      assert C[y].kind.Binned();
    }
  }

  // ---- Heaps in which everything released has been coalesced

  ghost predicate Merged(C: Chunks, base: int, top: int) {
    Shape(C, base, top) && Settled(C) && forall y | y in C :: !C[y].kind.Fast?
  }

  // The free chunks are those that coalescing leaves between the live blocks. There is only one
  // such set; see SameGaps.
  ghost predicate Consolidated(C: Chunks, base: int) {
    exists D: Chunks, t: int :: Merged(D, base, t) && Live(D) == Live(C) && FreeSizes(D) == FreeSizes(C)
  }

  lemma ConsolidatedToo(C: Chunks, C': Chunks, base: int)
    requires Consolidated(C, base) && Live(C') == Live(C) && FreeSizes(C') == FreeSizes(C)
    ensures Consolidated(C', base)
  {
    var D: Chunks, t: int :| Merged(D, base, t) && Live(D) == Live(C) && FreeSizes(D) == FreeSizes(C);
    assert Merged(D, base, t) && Live(D) == Live(C') && FreeSizes(D) == FreeSizes(C');
  }

  lemma IsConsolidated(av: int, base: int, top: int, end: int, C: Chunks, fast: seq<seq<int>>)
    requires PlaceOk(av, base, top, end, C) && Settled(C) && FastOk(C, fast) && forall j | 0 <= j < |fast| :: fast[j] == []
    ensures Consolidated(C, base)
  {
    assert Merged(C, base, top);
  }

  // A free chunk of a merged heap ends at a live block.
  lemma GapEnds(C: Chunks, base: int, top: int, p: int)
    requires Merged(C, base, top) && p in C && C[p].kind.Free?
    ensures Next(C, p) in Live(C)
  {
    assert ApartAt(C, top, p);
  }

  // No live block begins inside another chunk.
  lemma NotInside(C: Chunks, base: int, top: int, p: int, b: int)
    requires Merged(C, base, top) && p in C && b in Live(C) && p < b
    ensures Next(C, p) <= b
  {}

  // Two merged heaps with the same live blocks, walked from a common chunk boundary.
  lemma {:induction false} SameGapsFrom(C: Chunks, t: int, D: Chunks, u: int, base: int, p: int)
    requires Merged(C, base, t) && Merged(D, base, u) && Live(C) == Live(D)
    requires (p in C || p == t) && (p in D || p == u)
    ensures t == u
    ensures forall y | p <= y :: (y in FreeSizes(C) <==> y in FreeSizes(D)) && (y in FreeSizes(C) ==> FreeSizes(C)[y] == FreeSizes(D)[y])
    decreases t - p
  {
    if p in C && p in D {
      SameStep(C, t, D, u, base, p);
      SameGapsFrom(C, t, D, u, base, Next(C, p));
      forall y | p < y < Next(C, p) ensures y !in C && y !in D {}
    } else {
      if p in C { NotTheEnd(C, t, D, u, base, p); }
      if p in D { NotTheEnd(D, u, C, t, base, p); }
    }
  }

  // The one cannot end where the other has a chunk.
  lemma NotTheEnd(C: Chunks, t: int, D: Chunks, u: int, base: int, p: int)
    requires Merged(C, base, t) && Merged(D, base, u) && Live(C) == Live(D) && p in C
    ensures p < u
  {
    var b := if C[p].kind.Used? then p else Next(C, p);
    if C[p].kind.Free? { GapEnds(C, base, t, p); }
    assert b in Live(C) && b in D;
  }

  lemma SameStep(C: Chunks, t: int, D: Chunks, u: int, base: int, p: int)
    requires Merged(C, base, t) && Merged(D, base, u) && Live(C) == Live(D) && p in C && p in D
    ensures C[p].size == D[p].size && C[p].kind.Free? == D[p].kind.Free? && p < Next(C, p)
    ensures Next(C, p) in C || Next(C, p) == t
    ensures Next(D, p) in D || Next(D, p) == u
  {
    assert C[p].kind.Used? <==> p in Live(C);
    assert D[p].kind.Used? <==> p in Live(D);
    if C[p].kind.Used? {
      assert Live(C)[p] == Live(D)[p];
    } else {
      GapEnds(C, base, t, p);
      GapEnds(D, base, u, p);
      NotInside(C, base, t, p, Next(D, p));
      NotInside(D, base, u, p, Next(C, p));
    }
  }

  // The live blocks and the start of the arena determine the free chunks of a consolidated heap.
  lemma SameGaps(C: Chunks, D: Chunks, base: int)
    requires Consolidated(C, base) && Consolidated(D, base) && Live(C) == Live(D)
    ensures FreeSizes(C) == FreeSizes(D)
  {
    var C1: Chunks, t: int :| Merged(C1, base, t) && Live(C1) == Live(C) && FreeSizes(C1) == FreeSizes(C);
    var D1: Chunks, u: int :| Merged(D1, base, u) && Live(D1) == Live(D) && FreeSizes(D1) == FreeSizes(D);
    SameGapsFrom(C1, t, D1, u, base, base);
    assert forall y | y in FreeSizes(C1) || y in FreeSizes(D1) :: base <= y;
  }

  lemma EmptySmallBin(C: Chunks, lists: seq<seq<int>>, nb: int)
    requires MembersOk(C, lists) && SortOk(C, lists) && 2 <= BinOf(nb) < NBINS && lists[BinOf(nb)] == []
    ensures NoExact(C, nb)
  {
    forall y | y in C && C[y].kind.Binned() && C[y].kind.bin != 1 ensures C[y].size != nb {
      assert y in lists[C[y].kind.bin];
    }
  }

  lemma NoExactSmall(av: int, base: int, top: int, end: int, C: Chunks, lists: seq<seq<int>>, nb: int)
    requires PlaceOk(av, base, top, end, C) && MembersOk(C, lists) && SortOk(C, lists) && NoExact(C, nb)
    requires GoodSize(nb) && nb < MIN_LARGE_SIZE
    ensures NoneBetween(C, BinOf(nb), BinOf(nb) + 1, nb)
  {
    forall y | y in C && C[y].kind.Free? && BinOf(nb) <= C[y].kind.bin < BinOf(nb) + 1 ensures C[y].size < nb {
      assert y in lists[C[y].kind.bin];
      SmallBinSize(C, base, top, lists, C[y].kind.bin, y);
    }
  }

  lemma RebinnedExact(C: Chunks, x: int, i: int, nb: int)
    requires NoExact(C, nb) && x in C && C[x].kind.Free? && C[x].size != nb
    ensures NoExact(SetKind(SetKind(C, x, Free(0)), x, Free(i)), nb)
  {}

  // ---- Entering and leaving a fastbin

  lemma FastPop(av: int, base: int, top: int, end: int, C: Chunks, m: Mem, fastbins: seq<int>, fast: seq<seq<int>>, j: int)
    requires PlaceOk(av, base, top, end, C) && ChainsOk(m, fastbins, fast) && FastOk(C, fast)
    requires 0 <= j < NFASTBINS && fastbins[j] != 0
    ensures |fast| == NFASTBINS && fast[j] != [] && fast[j][0] == fastbins[j]
    ensures var x := fastbins[j]; x in C && C[x].kind == Fast(j) && C[x].size == 16 + 8 * j
    ensures ChainsOk(m, fastbins[j := Rd(m, fastbins[j] + FD)], fast[j := fast[j][1..]])
    ensures FastOk(UseAll(C, [fastbins[j]]), fast[j := fast[j][1..]])
  {
    var x := fastbins[j];
    assert Chain(m, fastbins[j], fast[j]);
    assert fast[j][0] in fast[j] && FastMember(C, j, x);
    var fast', C' := fast[j := fast[j][1..]], UseAll(C, [x]);
    forall i | 0 <= i < NFASTBINS ensures Chain(m, fastbins[j := Rd(m, x + FD)][i], fast'[i]) {
      assert Chain(m, fastbins[i], fast[i]);
    }
    FastPopMembers(C, fast, j);
  }

  lemma FastPopMembers(C: Chunks, fast: seq<seq<int>>, j: int)
    requires FastOk(C, fast) && 0 <= j < NFASTBINS && fast[j] != []
    ensures FastOk(UseAll(C, [fast[j][0]]), fast[j := fast[j][1..]])
  {
    var x := fast[j][0];
    var fast', C' := fast[j := fast[j][1..]], UseAll(C, [x]);
    assert x in fast[j] && FastMember(C, j, x) && NoDup(fast[j]);
    forall i | 0 <= i < NFASTBINS ensures NoDup(fast'[i]) { assert NoDup(fast[i]); }
    forall i, y | 0 <= i < NFASTBINS && y in fast'[i] ensures FastMember(C', i, y) {
      assert y in fast[i] && FastMember(C, i, y);
    }
    forall y | y in C' && C'[y].kind.Fast?
      ensures
        && 0 <= C'[y].kind.fb < NFASTBINS && y in fast'[C'[y].kind.fb]
        && C'[y].size == 16 + 8 * C'[y].kind.fb
    {
      assert y != x && y in fast[C[y].kind.fb];
    }
  }

  lemma FastPush(av: int, base: int, top: int, end: int, C: Chunks, m: Mem, fastbins: seq<int>, fast: seq<seq<int>>, j: int, x: int)
    requires PlaceOk(av, base, top, end, C) && ChainsOk(m, fastbins, fast) && FastOk(C, fast)
    requires 0 <= j < NFASTBINS && x in C && C[x].kind.Used? && C[x].size == 16 + 8 * j
    ensures |fast| == |fastbins| == NFASTBINS
    ensures ChainsOk(m[x + FD := fastbins[j]], fastbins[j := x], fast[j := [x] + fast[j]])
    ensures FastOk(SetKind(C, x, Fast(j)), fast[j := [x] + fast[j]])
  {
    var m', fast' := m[x + FD := fastbins[j]], fast[j := [x] + fast[j]];
    assert fast'[j][1..] == fast[j];
    forall i | 0 <= i < NFASTBINS ensures Chain(m', fastbins[j := x][i], fast'[i]) {
      assert Chain(m, fastbins[i], fast[i]);
      assert forall y | y in fast[i] :: FastMember(C, i, y);
      ChainFrame(m, m', fastbins[i], fast[i]);
    }
    FastPushMembers(C, fast, j, x);
  }

  lemma PrependNoDup(x: int, L: seq<int>)
    requires NoDup(L) && x !in L
    ensures NoDup([x] + L)
  {
    forall i, j | 0 <= i < j < |L| + 1 ensures ([x] + L)[i] != ([x] + L)[j] {
      assert ([x] + L)[j] == L[j - 1];
    }
  }

  lemma FastPushMembers(C: Chunks, fast: seq<seq<int>>, j: int, x: int)
    requires FastOk(C, fast) && 0 <= j < NFASTBINS && x in C && C[x].kind.Used? && C[x].size == 16 + 8 * j
    ensures FastOk(SetKind(C, x, Fast(j)), fast[j := [x] + fast[j]])
  {
    var C', fast' := SetKind(C, x, Fast(j)), fast[j := [x] + fast[j]];
    assert forall y | y in fast[j] :: FastMember(C, j, y);
    forall i | 0 <= i < NFASTBINS ensures NoDup(fast'[i]) {
      assert NoDup(fast[i]);
      if i == j { PrependNoDup(x, fast[j]); }
    }
    forall i, y | 0 <= i < NFASTBINS && y in fast'[i] ensures FastMember(C', i, y) {
      assert y in fast[i] ==> FastMember(C, i, y);
    }
    forall y | y in C' && C'[y].kind.Fast?
      ensures
        && 0 <= C'[y].kind.fb < NFASTBINS && y in fast'[C'[y].kind.fb]
        && C'[y].size == 16 + 8 * C'[y].kind.fb
    {
      assert y != x ==> y in fast[C[y].kind.fb];
    }
  }

  // The link word of a fastbin chunk lies in the chunk itself.
  lemma FastWrite(av: int, base: int, top: int, end: int, C: Chunks, m: Mem, lists: seq<seq<int>>, x: int, j: int, v: int)
    requires PlaceOk(av, base, top, end, C) && RingsOk(m, av, lists) && MembersOk(C, lists) && SortOk(C, lists)
    requires TagsOk(m, C, {}) && TopOk(m, top, end) && x in C && C[x].kind.Used?
    ensures RingsOk(m[x + FD := v], av, lists)
    ensures TagsOk(m[x + FD := v], SetKind(C, x, Fast(j)), {}) && TopOk(m[x + FD := v], top, end)
    ensures Untouched(SetKind(C, x, Fast(j)), m, m[x + FD := v])
    ensures PlaceOk(av, base, top, end, SetKind(C, x, Fast(j)))
    ensures MembersOk(SetKind(C, x, Fast(j)), lists) && SortOk(SetKind(C, x, Fast(j)), lists)
  {
    FastWriteRings(av, base, top, end, C, m, lists, x, v);
    FastWriteTags(av, base, top, end, C, m, x, j, v);
    FastKindLists(C, lists, x, j);
    SetKindKeeps(C, base, top, x, Fast(j));
  }

  lemma FastLinkNotNode(av: int, base: int, top: int, end: int, C: Chunks, x: int, z: int)
    requires PlaceOk(av, base, top, end, C) && x in C && z in C && x != z
    ensures x + FD != z + FD && x + FD != z + BK
  {}

  lemma FastWriteRings(av: int, base: int, top: int, end: int, C: Chunks, m: Mem, lists: seq<seq<int>>, x: int, v: int)
    requires PlaceOk(av, base, top, end, C) && RingsOk(m, av, lists) && MembersOk(C, lists)
    requires x in C && C[x].kind.Used?
    ensures RingsOk(m[x + FD := v], av, lists)
  {
    var w := x + FD;
    forall j | 1 <= j < NBINS ensures RingAt(m[w := v], av, j, lists[j]) {
      var h, L := Hdr(av, j), lists[j];
      assert RingAt(m, av, j, L);
      forall k | -1 <= k < |L| ensures At(h, L, k) + FD !in {w} && At(h, L, k) + BK !in {w} {
        if k >= 0 {
          RingMember(C, lists, j, k);
          FastLinkNotNode(av, base, top, end, C, x, L[k]);
        }
      }
      RingFrame(av, m, m[w := v], h, L, {w});
    }
  }

  lemma FastWriteTags(av: int, base: int, top: int, end: int, C: Chunks, m: Mem, x: int, j: int, v: int)
    requires PlaceOk(av, base, top, end, C) && TagsOk(m, C, {}) && TopOk(m, top, end)
    requires x in C && C[x].kind.Used?
    ensures TagsOk(m[x + FD := v], SetKind(C, x, Fast(j)), {}) && TopOk(m[x + FD := v], top, end)
    ensures Untouched(SetKind(C, x, Fast(j)), m, m[x + FD := v])
  {
    var m', C' := m[x + FD := v], SetKind(C, x, Fast(j));
    Below(C, base, top, x);
    forall a | a in C' ensures HeadOk(m', C', a) { assert HeadOk(m, C, a); }
    forall a | a in C' && C'[a].kind.Binned() ensures FootOk(m', C', a) {
      assert FootOk(m, C, a) && ApartAt(C, top, a) && Next(C, a) in C;
    }
    forall a, w | a in C' && C'[a].kind.Used? && a + 8 <= w < a + C'[a].size + SIZE ensures Rd(m', w) == Rd(m, w) {
      assert a != x;
    }
  }

  lemma FastKindLists(C: Chunks, lists: seq<seq<int>>, x: int, j: int)
    requires MembersOk(C, lists) && SortOk(C, lists) && x in C && C[x].kind.Used?
    ensures MembersOk(SetKind(C, x, Fast(j)), lists) && SortOk(SetKind(C, x, Fast(j)), lists)
  {
    var C' := SetKind(C, x, Fast(j));
    forall i, y | 1 <= i < NBINS && y in lists[i] ensures BinMember(C', i, y) { assert BinMember(C, i, y); }
    forall i | 2 <= i < NBINS ensures SortedBin(C', lists[i]) {
      assert SortedBin(C, lists[i]);
      assert forall y | y in lists[i] :: BinMember(C, i, y);
      SortedSameSizes(C, C', lists[i]);
    }
  }

  lemma LiveRelease(C: Chunks, x: int, kind: Kind)
    requires x in C && !kind.Used?
    ensures Live(SetKind(C, x, kind)) == Live(C) - {x}
  {}

  lemma LiveUse(C: Chunks, x: int)
    requires x in C && !C[x].kind.Used?
    ensures Live(UseAll(C, [x])) == Live(C)[x := C[x].size]
  {}

  lemma SmallSize(av: int, base: int, top: int, end: int, C: Chunks, lists: seq<seq<int>>, i: int, x: int)
    requires PlaceOk(av, base, top, end, C) && MembersOk(C, lists) && SortOk(C, lists)
    requires 2 <= i < NSMALLBINS && x in lists[i]
    ensures x in C && C[x].size == 8 * i
  {
    SmallBinSize(C, base, top, lists, i, x);
  }
}
