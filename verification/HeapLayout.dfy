// The chunks of the arena as the allocator's tags describe them, independent of memory.
//
// C maps the address of every chunk below `top` to its size, its PREV_INUSE flag and its state.
// Chunks in fastbins keep their in-use bit, so for the flags only `Free` chunks count as free.
module HeapLayout {

  datatype Kind =
    | Used               // handed out to a caller
    | Fast(fb: int)      // in fastbin fb
    | Free(bin: int)     // in bin `bin`; bin 1 is the unsorted bin, bin 0 means in no list
  {
    predicate Binned() { Free? && bin != 0 }
  }

  datatype Chunk = Chunk(size: int, prevInUse: bool, kind: Kind)

  type Chunks = map<int, Chunk>

  const MINSIZE := 16

  predicate Aligned(x: int) {
    x % 8 == 0
  }

  predicate GoodSize(s: int) {
    Aligned(s) && MINSIZE <= s
  }

  lemma AlignedSum(a: int, b: int)
    requires Aligned(a) && Aligned(b)
    ensures Aligned(a + b) && Aligned(a - b)
  {}

  function Next(C: Chunks, a: int): int
    requires a in C
  {
    a + C[a].size
  }

  // Following the size fields from `base` stays on chunk starts until `top`.
  ghost predicate Chained(C: Chunks, base: int, top: int) {
    && base <= top
    && (base == top || base in C)
    && (forall a {:trigger Next(C, a)} | a in C :: Next(C, a) == top || Next(C, a) in C)
  }

  ghost predicate Disjoint(C: Chunks, base: int, top: int) {
    && (forall a | a in C :: base <= a < top && Aligned(a) && GoodSize(C[a].size))
    && (forall a, b | a in C && b in C && a < b :: a + C[a].size <= b)
  }

  ghost predicate Tiled(C: Chunks, base: int, top: int) {
    Chained(C, base, top) && Disjoint(C, base, top)
  }

  // Every PREV_INUSE flag tells the truth.
  ghost predicate TruthfulTags(C: Chunks, base: int, top: int) {
    && (base in C ==> C[base].prevInUse)
    && (forall a {:trigger Next(C, a)} | a in C && Next(C, a) in C ::
          C[Next(C, a)].prevInUse == !C[a].kind.Free?)
  }

  // A binned chunk is followed neither by top nor by another binned chunk.
  ghost predicate ApartAt(C: Chunks, top: int, a: int)
    requires a in C
  {
    C[a].kind.Binned() ==> Next(C, a) != top && (Next(C, a) in C ==> !C[Next(C, a)].kind.Binned())
  }

  ghost predicate Apart(C: Chunks, top: int) {
    forall a {:trigger ApartAt(C, top, a)} | a in C :: ApartAt(C, top, a)
  }

  ghost predicate Shape(C: Chunks, base: int, top: int) {
    Tiled(C, base, top) && TruthfulTags(C, base, top) && Apart(C, top)
  }

  lemma Below(C: Chunks, base: int, top: int, a: int)
    requires Tiled(C, base, top) && a in C
    ensures Next(C, a) <= top
  {}

  // Every chunk but the first, and top, ends exactly one other chunk.
  lemma {:induction false} PrevExists(C: Chunks, base: int, top: int, from: int, b: int) returns (a: int)
    requires Tiled(C, base, top)
    requires b in C || b == top
    requires from in C && from < b
    ensures a in C && Next(C, a) == b
    decreases b - from
  {
    a := from;
    assert Next(C, a) <= b;
    if Next(C, a) != b {
      a := PrevExists(C, base, top, Next(C, a), b);
    }
  }

  // ---- The ways in which the tiling changes

  function SetKind(C: Chunks, a: int, kind: Kind): Chunks
    requires a in C
  {
    C[a := C[a].(kind := kind)]
  }

  // A chunk may move between lists as long as it stays free, or stays in use, for the flags.
  lemma SetKindKeeps(C: Chunks, base: int, top: int, a: int, kind: Kind)
    requires Shape(C, base, top) && a in C && C[a].kind.Free? == kind.Free?
    requires kind.Binned() ==>
               C[a].prevInUse && Next(C, a) != top && !C[Next(C, a)].kind.Free?
    ensures Shape(SetKind(C, a, kind), base, top)
  {
    hide Aligned;
    var C' := SetKind(C, a, kind);
    forall x | x in C' ensures Next(C', x) == top || Next(C', x) in C' {
      assert Next(C', x) == Next(C, x);
    }
    forall x | x in C' && Next(C', x) in C' ensures C'[Next(C', x)].prevInUse == !C'[x].kind.Free? {
      assert Next(C', x) == Next(C, x);
    }
    forall x | x in C' ensures ApartAt(C', top, x) {
      SetKindApart(C, base, top, a, kind, x);
    }
  }

  lemma SetKindApart(C: Chunks, base: int, top: int, a: int, kind: Kind, x: int)
    requires Shape(C, base, top) && a in C && x in C && C[a].kind.Free? == kind.Free?
    requires kind.Binned() ==>
               C[a].prevInUse && Next(C, a) != top && !C[Next(C, a)].kind.Free?
    ensures ApartAt(SetKind(C, a, kind), top, x)
  {
    hide Aligned;
    assert ApartAt(C, top, x);
    assert Next(SetKind(C, a, kind), x) == Next(C, x);
    assert Next(C, x) == a && kind.Binned() ==> !C[x].kind.Free?;
  }

  // The flag of the chunk that follows a, if a does not border top.
  function SetNextFlag(C: Chunks, a: int, inUse: bool): Chunks
    requires a in C
  {
    if Next(C, a) in C then C[Next(C, a) := C[Next(C, a)].(prevInUse := inUse)] else C
  }

  // a becomes free, or used, and the flag after it follows suit.
  function Turn(C: Chunks, a: int, kind: Kind): Chunks
    requires a in C
  {
    SetNextFlag(C, a, !kind.Free?)[a := C[a].(kind := kind)]
  }

  lemma TurnReads(C: Chunks, base: int, top: int, a: int, kind: Kind)
    requires Tiled(C, base, top) && a in C
    ensures Turn(C, a, kind).Keys == C.Keys
    ensures forall x | x in C ::
              && Turn(C, a, kind)[x].size == C[x].size
              && Turn(C, a, kind)[x].kind == (if x == a then kind else C[x].kind)
              && Turn(C, a, kind)[x].prevInUse == (if x == Next(C, a) then !kind.Free? else C[x].prevInUse)
    ensures Next(C, a) != a
  {}

  lemma TurnKeeps(C: Chunks, base: int, top: int, a: int, kind: Kind)
    requires Shape(C, base, top) && a in C && !kind.Binned()
    ensures Shape(Turn(C, a, kind), base, top)
    ensures Turn(C, a, kind).Keys == C.Keys
  {
    TurnReads(C, base, top, a, kind);
    TurnTiled(C, Turn(C, a, kind), base, top, a, kind);
    TurnTruth(C, Turn(C, a, kind), base, top, a, kind);
  }

  lemma TurnTiled(C: Chunks, C': Chunks, base: int, top: int, a: int, kind: Kind)
    requires Shape(C, base, top) && a in C && !kind.Binned()
    requires C'.Keys == C.Keys
    requires forall x | x in C :: C'[x].size == C[x].size && C'[x].kind == (if x == a then kind else C[x].kind)
    ensures Tiled(C', base, top) && Apart(C', top)
  {
    hide Aligned;
    forall x | x in C' ensures Next(C', x) == top || Next(C', x) in C' {
      assert Next(C', x) == Next(C, x);
    }
    forall x | x in C' ensures ApartAt(C', top, x) {
      assert Next(C', x) == Next(C, x) && ApartAt(C, top, x);
    }
  }

  lemma TurnTruth(C: Chunks, C': Chunks, base: int, top: int, a: int, kind: Kind)
    requires Shape(C, base, top) && a in C && C'.Keys == C.Keys
    requires forall x | x in C ::
               && C'[x].size == C[x].size
               && C'[x].kind == (if x == a then kind else C[x].kind)
               && C'[x].prevInUse == (if x == Next(C, a) then !kind.Free? else C[x].prevInUse)
    ensures TruthfulTags(C', base, top)
  {
    hide Aligned;
    forall x | x in C' && Next(C', x) in C' ensures C'[Next(C', x)].prevInUse == !C'[x].kind.Free? {
      assert Next(C', x) == Next(C, x);
    }
  }

  // a swallows the chunk that follows it.
  function Merge(C: Chunks, a: int): Chunks
    requires a in C && Next(C, a) in C
  {
    (C - {Next(C, a)})[a := C[a].(size := C[a].size + C[Next(C, a)].size)]
  }

  lemma MergeTiled(C: Chunks, base: int, top: int, a: int)
    requires Tiled(C, base, top) && a in C && Next(C, a) in C
    ensures Tiled(Merge(C, a), base, top)
    ensures Next(Merge(C, a), a) == Next(C, Next(C, a))
  {
    MergeDisjoint(C, base, top, a);
    MergeChained(C, base, top, a);
  }

  lemma MergeChained(C: Chunks, base: int, top: int, a: int)
    requires Tiled(C, base, top) && a in C && Next(C, a) in C
    ensures Chained(Merge(C, a), base, top)
    ensures Next(Merge(C, a), a) == Next(C, Next(C, a))
  {
    hide Aligned;
    var n := Next(C, a);
    var C' := Merge(C, a);
    assert Next(C', a) == Next(C, n);
    forall x | x in C' ensures Next(C', x) == top || Next(C', x) in C' {
      assert x != a ==> Next(C', x) == Next(C, x);
    }
  }

  lemma MergeDisjoint(C: Chunks, base: int, top: int, a: int)
    requires Tiled(C, base, top) && a in C && Next(C, a) in C
    ensures Disjoint(Merge(C, a), base, top)
  {
    var n := Next(C, a);
    AlignedSum(C[a].size, C[n].size);
    Below(C, base, top, n);
    hide Next, Chained, Aligned;
    var C' := Merge(C, a);
    forall x, y | x in C' && y in C' && x < y ensures x + C'[x].size <= y {
      if x == a { assert n < y; }
    }
  }

  lemma MergeKeeps(C: Chunks, base: int, top: int, a: int)
    requires Shape(C, base, top) && a in C && Next(C, a) in C
    requires C[a].kind == Free(0) && C[Next(C, a)].kind == Free(0)
    ensures Shape(Merge(C, a), base, top)
  {
    hide Aligned;
    MergeTiled(C, base, top, a);
    var C' := Merge(C, a);
    forall x | x in C' && Next(C', x) in C' ensures C'[Next(C', x)].prevInUse == !C'[x].kind.Free? {
      if x != a { assert Next(C', x) == Next(C, x); }
    }
    forall x | x in C' ensures ApartAt(C', top, x) {
      if x != a { assert Next(C', x) == Next(C, x) && ApartAt(C, top, x); }
    }
  }

  // The free chunk a that borders top becomes part of it.
  lemma PopTopKeeps(C: Chunks, base: int, top: int, a: int)
    requires Shape(C, base, top) && a in C && Next(C, a) == top && C[a].prevInUse
    ensures Shape(C - {a}, base, a)
  {
    hide Aligned;
    var C' := C - {a};
    forall x | x in C' ensures Next(C', x) == a || Next(C', x) in C' {
      assert Next(C', x) == Next(C, x);
      assert x < a;
    }
    forall x | x in C' && Next(C', x) in C' ensures C'[Next(C', x)].prevInUse == !C'[x].kind.Free? {
      assert Next(C', x) == Next(C, x);
    }
    forall x | x in C' ensures ApartAt(C', a, x) {
      assert Next(C', x) == Next(C, x) && ApartAt(C, top, x);
    }
  }

  // top gives its first nb bytes to a new used chunk.
  function PushTop(C: Chunks, top: int, nb: int): Chunks {
    C[top := Chunk(nb, true, Used)]
  }

  lemma PushTopTiled(C: Chunks, base: int, top: int, nb: int)
    requires Tiled(C, base, top) && GoodSize(nb) && Aligned(top)
    ensures Tiled(PushTop(C, top, nb), base, top + nb)
  {
    var C' := PushTop(C, top, nb);
    forall x | x in C' ensures Next(C', x) == top + nb || Next(C', x) in C' {
      assert x != top ==> Next(C', x) == Next(C, x);
    }
    forall x | x in C ensures x + C[x].size <= top {
      assert Next(C, x) <= top;
    }
  }

  // Only a truthful flag is needed because no free chunk borders top.
  lemma PushTopKeeps(C: Chunks, base: int, top: int, nb: int)
    requires Shape(C, base, top) && GoodSize(nb) && Aligned(top)
    requires forall a | a in C && C[a].kind.Free? :: C[a].kind.Binned()
    ensures Shape(PushTop(C, top, nb), base, top + nb)
  {
    hide Aligned;
    PushTopTiled(C, base, top, nb);
    var C' := PushTop(C, top, nb);
    forall x | x in C' && Next(C', x) in C' ensures C'[Next(C', x)].prevInUse == !C'[x].kind.Free? {
      assert x != top;
      assert Next(C', x) == Next(C, x) && ApartAt(C, top, x);
    }
    forall x | x in C' ensures ApartAt(C', top + nb, x) {
      if x != top { assert Next(C', x) == Next(C, x) && ApartAt(C, top, x); }
    }
  }

  // A free chunk gives its first nb bytes away; the rest becomes a chunk in no list.
  function Split(C: Chunks, a: int, nb: int): Chunks
    requires a in C
  {
    C[a := Chunk(nb, C[a].prevInUse, Used)][a + nb := Chunk(C[a].size - nb, true, Free(0))]
  }

  lemma SplitTiled(C: Chunks, base: int, top: int, a: int, nb: int)
    requires Tiled(C, base, top) && a in C
    requires GoodSize(nb) && nb + MINSIZE <= C[a].size
    ensures a + nb !in C
    ensures Next(Split(C, a, nb), a + nb) == Next(C, a) && Next(Split(C, a, nb), a) == a + nb
    ensures Tiled(Split(C, a, nb), base, top)
  {
    SplitDisjoint(C, base, top, a, nb);
    SplitChained(C, base, top, a, nb);
  }

  lemma SplitChained(C: Chunks, base: int, top: int, a: int, nb: int)
    requires Tiled(C, base, top) && a in C && GoodSize(nb) && nb + MINSIZE <= C[a].size
    ensures a + nb !in C
    ensures Next(Split(C, a, nb), a + nb) == Next(C, a) && Next(Split(C, a, nb), a) == a + nb
    ensures Chained(Split(C, a, nb), base, top)
  {
    hide Aligned;
    var C' := Split(C, a, nb);
    var r := a + nb;
    assert Next(C', r) == Next(C, a) && Next(C', a) == r;
    forall x | x in C' ensures Next(C', x) == top || Next(C', x) in C' {
      assert x != a && x != r ==> Next(C', x) == Next(C, x);
    }
  }

  lemma SplitDisjoint(C: Chunks, base: int, top: int, a: int, nb: int)
    requires Tiled(C, base, top) && a in C && GoodSize(nb) && nb + MINSIZE <= C[a].size
    ensures Disjoint(Split(C, a, nb), base, top)
  {
    Below(C, base, top, a);
    AlignedSum(a, nb);
    AlignedSum(C[a].size, nb);
    hide Chained, Aligned;
    var C' := Split(C, a, nb);
    forall x, y | x in C' && y in C' && x < y ensures x + C'[x].size <= y {
      SplitPair(C, base, top, a, nb, x, y);
    }
  }

  lemma SplitPair(C: Chunks, base: int, top: int, a: int, nb: int, x: int, y: int)
    requires Disjoint(C, base, top) && a in C && GoodSize(nb) && nb + MINSIZE <= C[a].size
    requires x in Split(C, a, nb) && y in Split(C, a, nb) && x < y
    ensures x + Split(C, a, nb)[x].size <= y
  {
    hide Aligned;
    assert x in C || x == a + nb;
    assert y in C || y == a + nb;
    assert y in C && a < y ==> a + C[a].size <= y;
    assert x in C && x < a ==> x + C[x].size <= a;
  }

  lemma SplitKeeps(C: Chunks, base: int, top: int, a: int, nb: int)
    requires Shape(C, base, top) && a in C && C[a].kind == Free(0)
    requires GoodSize(nb) && nb + MINSIZE <= C[a].size
    ensures Shape(Split(C, a, nb), base, top)
  {
    SplitTiled(C, base, top, a, nb);
    SplitTruth(C, base, top, a, nb);
    hide Aligned, Disjoint, TruthfulTags, Chained;
    var C' := Split(C, a, nb);
    forall x | x in C' ensures ApartAt(C', top, x) {
      if x != a && x != a + nb { assert Next(C', x) == Next(C, x) && ApartAt(C, top, x); }
    }
  }

  lemma SplitTruth(C: Chunks, base: int, top: int, a: int, nb: int)
    requires Shape(C, base, top) && a in C && C[a].kind == Free(0)
    requires GoodSize(nb) && nb + MINSIZE <= C[a].size
    ensures TruthfulTags(Split(C, a, nb), base, top)
  {
    SplitTiled(C, base, top, a, nb);
    hide Aligned, Apart;
    var C' := Split(C, a, nb);
    forall x | x in C' && Next(C', x) in C' ensures C'[Next(C', x)].prevInUse == !C'[x].kind.Free? {
      if x != a && x != a + nb { assert Next(C', x) == Next(C, x) && Next(C, x) != a + nb; }
    }
  }
}
