// The doubly linked circular lists of the allocator, kept inside flat word memory.
//
// A node is a chunk address or a bin header address; its `fd` word is 8 bytes and its `bk`
// word 12 bytes after that address (struct malloc_chunk).  A ring is the sequence of nodes met
// when `fd` is followed from the header.
module HeapRings {

  import opened Words

  // Word memory.  The loader and boot() fill .bss and the heap with zeros, so a word that has
  // never been written reads as zero.
  type Mem = map<int, int>

  function Rd(m: Mem, w: int): int {
    if w in m then m[w] else 0
  }

  const FD := 8
  const BK := 12

  // The bin headers occupy the 768 bytes from `av`; chunks lie above them and are 8-aligned.
  predicate IsNode(av: int, x: int) {
    (av <= x < av + 760 && (x - av) % 8 == 0) || (av + 768 <= x && x % 8 == 0)
  }

  // The node at position k of the ring; every position outside the sequence is the header.
  function At(h: int, L: seq<int>, k: int): int {
    if 0 <= k < |L| then L[k] else h
  }

  ghost predicate LinkOk(m: Mem, h: int, L: seq<int>, k: int) {
    Rd(m, At(h, L, k) + FD) == At(h, L, k + 1) && Rd(m, At(h, L, k + 1) + BK) == At(h, L, k)
  }

  ghost predicate Nodes(av: int, h: int, L: seq<int>) {
    IsNode(av, h) && NoDup(L) && forall k | 0 <= k < |L| :: IsNode(av, L[k]) && L[k] != h
  }

  ghost predicate Ring(m: Mem, h: int, L: seq<int>) {
    forall k | -1 <= k < |L| :: LinkOk(m, h, L, k)
  }

  ghost predicate SameOutside(m: Mem, m': Mem, ws: set<int>) {
    forall w | w !in ws :: Rd(m', w) == Rd(m, w)
  }

  function InsertAt(L: seq<int>, k: int, p: int): (r: seq<int>)
    requires 0 <= k <= |L|
  {
    L[..k] + [p] + L[k..]
  }

  function RemoveAt(L: seq<int>, k: int): (r: seq<int>)
    requires 0 <= k < |L|
  {
    L[..k] + L[k+1..]
  }

  // A write to words that belong to no node of the ring leaves it alone.
  lemma RingFrame(av: int, m: Mem, m': Mem, h: int, L: seq<int>, ws: set<int>)
    requires Ring(m, h, L) && SameOutside(m, m', ws)
    requires forall k | -1 <= k < |L| :: At(h, L, k) + FD !in ws && At(h, L, k) + BK !in ws
    ensures Ring(m', h, L)
  {
    forall k | -1 <= k < |L| ensures LinkOk(m', h, L, k) {
      assert LinkOk(m, h, L, k);
      if k + 1 < |L| {
        assert At(h, L, k + 1) + BK !in ws;
      } else {
        assert At(h, L, -1) + BK !in ws;
      }
    }
  }

  lemma DistinctNodes(av: int, h: int, L: seq<int>, i: int, j: int)
    requires Nodes(av, h, L) && -1 <= i <= |L| && -1 <= j <= |L|
    requires At(h, L, i) == At(h, L, j)
    ensures i == j || (i in {-1, |L|} && j in {-1, |L|})
  {}

  // The four pointer writes that put p between two neighbours.
  function LinkBetween(m: Mem, p: int, bck: int, fwd: int): Mem {
    m[p + BK := bck][p + FD := fwd][fwd + BK := p][bck + FD := p]
  }

  // Macro unlink.
  function Unlinked(m: Mem, bck: int, fwd: int): Mem {
    m[fwd + BK := bck][bck + FD := fwd]
  }

  // Reading a link word after LinkBetween: node words never overlap.
  lemma LinkBetweenReads(av: int, m: Mem, p: int, bck: int, fwd: int, x: int)
    requires IsNode(av, p) && IsNode(av, bck) && IsNode(av, fwd) && IsNode(av, x)
    ensures Rd(LinkBetween(m, p, bck, fwd), x + FD) ==
            if x == bck then p else if x == p then fwd else Rd(m, x + FD)
    ensures p != fwd ==>
              Rd(LinkBetween(m, p, bck, fwd), x + BK) == (if x == fwd then p else if x == p then bck else Rd(m, x + BK))
  {
    WordsApart(av, x, p);
    WordsApart(av, x, bck);
    WordsApart(av, x, fwd);
    WordsApart(av, p, x);
    WordsApart(av, bck, x);
    WordsApart(av, fwd, x);
    hide IsNode;
  }

  lemma WordsApart(av: int, x: int, y: int)
    requires IsNode(av, x) && IsNode(av, y)
    ensures x + FD != y + BK
  {}

  lemma InsertNodes(av: int, h: int, L: seq<int>, k: int, p: int)
    requires Nodes(av, h, L) && 0 <= k <= |L|
    requires IsNode(av, p) && p != h && p !in L
    ensures Nodes(av, h, InsertAt(L, k, p))
  {}

  lemma InsertAtReads(h: int, L: seq<int>, k: int, p: int, j: int)
    requires 0 <= k <= |L|
    ensures At(h, InsertAt(L, k, p), j) ==
            if j < k then At(h, L, j) else if j == k then p else At(h, L, j - 1)
  {}

  // LinkBetween inserts p at the position of `fwd`.
  lemma RingInsert(av: int, m: Mem, h: int, L: seq<int>, k: int, p: int)
    requires Nodes(av, h, L) && Ring(m, h, L) && 0 <= k <= |L|
    requires IsNode(av, p) && p != h && p !in L
    ensures Nodes(av, h, InsertAt(L, k, p))
    ensures Ring(LinkBetween(m, p, At(h, L, k - 1), At(h, L, k)), h, InsertAt(L, k, p))
  {
    var L' := InsertAt(L, k, p);
    var m' := LinkBetween(m, p, At(h, L, k - 1), At(h, L, k));
    InsertNodes(av, h, L, k, p);
    forall j | -1 <= j < |L'| ensures LinkOk(m', h, L', j) {
      InsertedLink(av, m, h, L, k, p, j);
    }
  }

  lemma InsertedLink(av: int, m: Mem, h: int, L: seq<int>, k: int, p: int, j: int)
    requires Nodes(av, h, L) && Ring(m, h, L) && 0 <= k <= |L|
    requires IsNode(av, p) && p != h && p !in L
    requires -1 <= j <= |L|
    ensures LinkOk(LinkBetween(m, p, At(h, L, k - 1), At(h, L, k)), h, InsertAt(L, k, p), j)
  {
    var bck, fwd := At(h, L, k - 1), At(h, L, k);
    InsertAtReads(h, L, k, p, j);
    InsertAtReads(h, L, k, p, j + 1);
    var x, y := At(h, InsertAt(L, k, p), j), At(h, InsertAt(L, k, p), j + 1);
    LinkBetweenReads(av, m, p, bck, fwd, x);
    LinkBetweenReads(av, m, p, bck, fwd, y);
    var i := if j < k then j else j - 1;
    assert i != -1 || j == -1 || j == k;
    if i != k - 1 && j != k {
      assert LinkOk(m, h, L, i);
      if x == bck { DistinctNodes(av, h, L, i, k - 1); }
      if y == fwd { DistinctNodes(av, h, L, i + 1, k); }
    }
  }

  lemma UnlinkedReads(av: int, m: Mem, bck: int, fwd: int, x: int)
    requires IsNode(av, bck) && IsNode(av, fwd) && IsNode(av, x)
    ensures Rd(Unlinked(m, bck, fwd), x + FD) == if x == bck then fwd else Rd(m, x + FD)
    ensures Rd(Unlinked(m, bck, fwd), x + BK) == if x == fwd then bck else Rd(m, x + BK)
  {}

  lemma RemoveNodes(av: int, h: int, L: seq<int>, k: int)
    requires Nodes(av, h, L) && 0 <= k < |L|
    ensures Nodes(av, h, RemoveAt(L, k)) && L[k] !in RemoveAt(L, k)
  {}

  lemma RemoveAtReads(h: int, L: seq<int>, k: int, j: int)
    requires 0 <= k < |L|
    ensures At(h, RemoveAt(L, k), j) == if j < k then At(h, L, j) else At(h, L, j + 1)
  {}

  // Unlinking the two neighbours of a node removes exactly that node.
  lemma RingRemove(av: int, m: Mem, h: int, L: seq<int>, k: int)
    requires Nodes(av, h, L) && Ring(m, h, L) && 0 <= k < |L|
    ensures At(h, L, k - 1) == Rd(m, L[k] + BK) && At(h, L, k + 1) == Rd(m, L[k] + FD)
    ensures Nodes(av, h, RemoveAt(L, k)) && L[k] !in RemoveAt(L, k)
    ensures Ring(Unlinked(m, At(h, L, k - 1), At(h, L, k + 1)), h, RemoveAt(L, k))
  {
    assert LinkOk(m, h, L, k) && LinkOk(m, h, L, k - 1);
    var L' := RemoveAt(L, k);
    var m' := Unlinked(m, At(h, L, k - 1), At(h, L, k + 1));
    RemoveNodes(av, h, L, k);
    forall j | -1 <= j < |L'| ensures LinkOk(m', h, L', j) {
      RemovedLink(av, m, h, L, k, j);
    }
  }

  lemma RemovedLink(av: int, m: Mem, h: int, L: seq<int>, k: int, j: int)
    requires Nodes(av, h, L) && Ring(m, h, L) && 0 <= k < |L|
    requires -1 <= j < |L| - 1
    ensures LinkOk(Unlinked(m, At(h, L, k - 1), At(h, L, k + 1)), h, RemoveAt(L, k), j)
  {
    var bck, fwd := At(h, L, k - 1), At(h, L, k + 1);
    RemoveAtReads(h, L, k, j);
    RemoveAtReads(h, L, k, j + 1);
    var x, y := At(h, RemoveAt(L, k), j), At(h, RemoveAt(L, k), j + 1);
    UnlinkedReads(av, m, bck, fwd, x);
    UnlinkedReads(av, m, bck, fwd, y);
    var i := if j < k then j else j + 1;
    if j != k - 1 {
      assert LinkOk(m, h, L, i);
      if x == bck { DistinctNodes(av, h, L, i, k - 1); }
      if y == fwd { DistinctNodes(av, h, L, i + 1, k + 1); }
    }
  }
}
