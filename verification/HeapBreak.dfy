// The arithmetic of the first extension of the heap in sYSMALLOc, where the break may be
// misaligned and a second call of sbrk corrects it.
module HeapBreak {
  import opened HeapLayout
  import opened Words

  function RoundUp(x: int): int {
    x + 4095 - (x + 4095) % 4096
  }

  lemma RoundUpFacts(x: int)
    ensures RoundUp(x) % 4096 == 0 && x <= RoundUp(x) <= x + 4095
  {}

  lemma RoundUpLeast(x: int, y: int)
    requires y % 4096 == 0 && x <= y
    ensures RoundUp(x) <= y
  {
    RoundUpFacts(x);
  }

  lemma PageIsAligned(x: int)
    requires x % 4096 == 0
    ensures Aligned(x)
  {}

  // Where the first chunk goes, and where top ends, given what sbrk returned for `size` bytes
  // and whether the correcting second call still fits below heapEnd.
  function FirstBase(start: int): int {
    if (start + 8) % 8 > 0 then start + (8 - (start + 8) % 8) else start
  }

  function Correction(start: int, size: int): int {
    RoundUp(FirstBase(start) + size) - (start + size)
  }

  function FirstEnd(start: int, size: int, heapEnd: int): int {
    if start + size + Correction(start, size) <= heapEnd then start + size + Correction(start, size)
    else start + size
  }

  lemma FirstBaseFacts(start: int)
    ensures Aligned(FirstBase(start)) && start <= FirstBase(start) <= start + 7
    ensures Aligned(start) <==> FirstBase(start) == start
  {}

  lemma SumAligned(start: int, size: int)
    requires Aligned(size)
    ensures Aligned(start + size) <==> Aligned(start)
  {}

  // The first top chunk ends on an 8-byte boundary exactly when the heap starts on one or the
  // correcting call of sbrk succeeds.
  lemma FirstTopAligned(start: int, size: int, heapEnd: int)
    requires 0 <= size && size % 4096 == 0 && start + size <= heapEnd
    ensures Aligned(FirstEnd(start, size, heapEnd)) <==>
            (Aligned(start) || start + size + Correction(start, size) <= heapEnd)
  {
    PageIsAligned(size);
    SumAligned(start, size);
    RoundUpFacts(FirstBase(start) + size);
    PageIsAligned(RoundUp(FirstBase(start) + size));
  }

  // Both heaps of the system satisfy this condition: the kernel's ends on a page boundary.
  lemma FirstTopFits(start: int, size: int, heapEnd: int)
    requires size % 4096 == 0 && size > 0 && start + size <= heapEnd
    requires Aligned(start) || heapEnd % 4096 == 0
    ensures Aligned(FirstEnd(start, size, heapEnd)) && FirstBase(start) + size <= FirstEnd(start, size, heapEnd)
    ensures 0 <= Correction(start, size) < 8192
  {
    FirstTopAligned(start, size, heapEnd);
    FirstBaseFacts(start);
    RoundUpFacts(FirstBase(start) + size);
    if !Aligned(start) {
      PageIsAligned(size);
      PageIsAligned(heapEnd);
      SumAligned(start, size);
      SumAligned(FirstBase(start), size);
      AlignedGap(FirstBase(start) + size, heapEnd);
      RoundUpLeast(FirstBase(start) + size, heapEnd);
    }
  }

  lemma AlignedGap(x: int, y: int)
    requires Aligned(x) && Aligned(y) && x < y + 8
    ensures x <= y
  {}

  // The first request asks for `size` bytes, the correction fails, and top is misaligned.
  ghost predicate Misaligns(start: int, size: int, heapEnd: int) {
    0 < size && size % 4096 == 0 && start + size <= heapEnd && !Aligned(FirstEnd(start, size, heapEnd))
  }

  // All the whole pages of a heap.
  function Pages(start: int, heapEnd: int): int {
    heapEnd - start - (heapEnd - start) % 4096
  }

  // Which heaps some first request leaves with a misaligned top.
  lemma MisalignedTop(start: int, heapEnd: int)
    ensures (exists size :: Misaligns(start, size, heapEnd)) <==>
            !Aligned(start) && Pages(start, heapEnd) > 0 && RoundUp(FirstBase(start) + Pages(start, heapEnd)) > heapEnd
  {
    var p := Pages(start, heapEnd);
    if size :| Misaligns(start, size, heapEnd) {
      FirstTopAligned(start, size, heapEnd);
      RoundUpLeast(size, p);
      RoundUpFacts(FirstBase(start) + p);
      RoundUpLeast(FirstBase(start) + size, RoundUp(FirstBase(start) + p));
    }
    if !Aligned(start) && p > 0 && RoundUp(FirstBase(start) + p) > heapEnd {
      FirstTopAligned(start, p, heapEnd);
      assert Misaligns(start, p, heapEnd);
    }
  }

  // For example a heap at address 4 that holds exactly one page.
  lemma OnePageHeap()
    ensures Misaligns(4, 4096, 4100)
  {}

  // ---- The size asked from sbrk, with 32-bit wrap-around

  function GrowthSize(nb: int, old_size: int): int {
    var size := (nb + MINSIZE - old_size) % WORD;
    var padded := (size + 4095) % WORD;
    padded - padded % 4096
  }

  // A growth that is positive as a signed word is large enough and less than a page too large;
  // otherwise the request was close to 2^31 or beyond.
  lemma GrowthFacts(nb: int, old_size: int)
    requires 0 <= old_size < nb + MINSIZE < WORD
    ensures GrowthSize(nb, old_size) % 4096 == 0 && 0 <= GrowthSize(nb, old_size) < WORD
    ensures 0 < GrowthSize(nb, old_size) < WORD / 2 ==>
              nb + MINSIZE - old_size <= GrowthSize(nb, old_size) < nb + MINSIZE - old_size + 4096
    ensures !(0 < GrowthSize(nb, old_size) < WORD / 2) ==> nb + MINSIZE + 4096 > WORD / 2
  {}
}
