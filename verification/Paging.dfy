// The page tables set up at boot, and the debugger's copies in and out of the memory they map.
module Paging {

  import opened Words

  const PAGE := 4096
  const SUPERPAGE := 0x40_0000

  // Physical memory; addresses outside the map hold 0.
  type Memory = map<int, Byte>

  function Read(m: Memory, a: int): Byte {
    if a in m then m[a] else 0
  }

  // A little-endian 32-bit word.
  function Word(m: Memory, a: int): (w: int)
    ensures 0 <= w < WORD
  {
    Read(m, a) + 0x100 * Read(m, a + 1) + 0x1_0000 * Read(m, a + 2) + 0x100_0000 * Read(m, a + 3)
  }

  function Store(m: Memory, a: int, w: int): Memory
    requires 0 <= w < WORD
  {
    var w1 := w / 0x100;
    var w2 := w1 / 0x100;
    m[a := w % 0x100][a + 1 := w1 % 0x100][a + 2 := w2 % 0x100][a + 3 := w2 / 0x100]
  }

  lemma Stored(m: Memory, a: int, w: int)
    requires 0 <= w < WORD
    ensures Word(Store(m, a, w), a) == w
    ensures forall b :: b < a || b >= a + 4 ==> Read(Store(m, a, w), b) == Read(m, b)
  {}

  // m' agrees with m on the word at a.
  lemma SameWord(m: Memory, m': Memory, a: int)
    requires forall b :: a <= b < a + 4 ==> Read(m', b) == Read(m, b)
    ensures Word(m', a) == Word(m, a)
  {
    assert Read(m', a) == Read(m, a) && Read(m', a + 1) == Read(m, a + 1);
    assert Read(m', a + 2) == Read(m, a + 2) && Read(m', a + 3) == Read(m, a + 3);
  }

  // ---- Address translation, one address at a time

  function Frame(w: int): int {
    w - w % PAGE
  }

  predicate PagingOn(cr0: int) {
    cr0 >= 0x8000_0000
  }

  function PdeAddress(cr3: int, va: int): int {
    Frame(cr3) + 4 * (va / SUPERPAGE)
  }

  function PteAddress(pde: int, va: int): int {
    Frame(pde) + 4 * (va / PAGE % 1024)
  }

  predicate Present(entry: int) {
    entry % 2 == 1
  }

  predicate Large(pde: int) {
    pde / 128 % 2 == 1
  }

  // The physical address the processor finds for va, if there is one.
  function Translate(m: Memory, cr0: int, cr3: int, va: int): Option<int> {
    if !PagingOn(cr0) then Some(va)
    else
      var pde := Word(m, PdeAddress(cr3, va));
      if !Present(pde) then None
      else if Large(pde) then Some(pde - pde % SUPERPAGE + va % SUPERPAGE)
      else
        var pte := Word(m, PteAddress(pde, va));
        if !Present(pte) then None else Some(Frame(pte) + va % PAGE)
  }

  // The addresses the translation of va reads.
  ghost predicate Consulted(m: Memory, cr0: int, cr3: int, va: int, a: int) {
    PagingOn(cr0) &&
    var d := PdeAddress(cr3, va);
    var pde := Word(m, d);
    d <= a < d + 4 || (Present(pde) && !Large(pde) && var t := PteAddress(pde, va); t <= a < t + 4)
  }

  lemma TranslateSame(m: Memory, m': Memory, cr0: int, cr3: int, va: int)
    requires forall a :: Consulted(m, cr0, cr3, va, a) ==> Read(m', a) == Read(m, a)
    ensures Translate(m', cr0, cr3, va) == Translate(m, cr0, cr3, va)
    ensures forall a :: Consulted(m', cr0, cr3, va, a) == Consulted(m, cr0, cr3, va, a)
  {
    if PagingOn(cr0) {
      var d := PdeAddress(cr3, va);
      var pde := Word(m, d);
      assert forall b :: d <= b < d + 4 ==> Consulted(m, cr0, cr3, va, b);
      SameWord(m, m', d);
      if Present(pde) && !Large(pde) {
        var t := PteAddress(pde, va);
        assert forall b :: t <= b < t + 4 ==> Consulted(m, cr0, cr3, va, b);
        SameWord(m, m', t);
      }
    }
  }

  // ---- The translation in numbers: entry i of the directory, entry j of the table

  // Entry w = 4096 f + b of the directory or of a table, b being its low twelve bits.
  lemma EntryBits(f: int, b: int)
    requires 0 <= b < 4096
    ensures Frame(4096 * f + b) == 4096 * f && (Present(4096 * f + b) <==> b % 2 == 1)
    ensures Large(4096 * f + b) <==> b % 256 >= 128
  {
    var w := 4096 * f + b;
    QuotientIs(w, 4096, f, b);
    QuotientIs(w, 2, 2048 * f + b / 2, b % 2);
    QuotientIs(w, 128, 32 * f + b / 128, b % 128);
    QuotientIs(w / 128, 2, 16 * f + b / 128 / 2, b / 128 % 2);
  }

  lemma AddressParts(i: int, j: int, o: int)
    requires 0 <= j < 1024 && 0 <= o < 4096
    ensures var va := 0x40_0000 * i + 0x1000 * j + o;
            && va / SUPERPAGE == i && va % SUPERPAGE == 0x1000 * j + o && va / PAGE % 1024 == j && va % PAGE == o
  {
    var va := 0x40_0000 * i + 0x1000 * j + o;
    QuotientIs(va, SUPERPAGE, i, 0x1000 * j + o);
    QuotientIs(va, PAGE, 1024 * i + j, o);
    QuotientIs(1024 * i + j, 1024, i, j);
  }

  // Without paging every address is its own translation.
  lemma NoPaging(m: Memory, cr0: int, cr3: int, va: int)
    requires 0 <= cr0 < 0x8000_0000
    ensures Translate(m, cr0, cr3, va) == Some(va)
  {}

  // An even directory entry maps nothing.
  lemma NoTable(m: Memory, cr0: int, d: int, x: int, i: int, j: int, o: int, f: int, b: int)
    requires 0x8000_0000 <= cr0 < WORD && 0 <= x < 4096 && 0 <= j < 1024 && 0 <= o < 4096
    requires Word(m, 4096 * d + 4 * i) == 4096 * f + b && 0 <= b < 4096 && b % 2 == 0
    ensures Translate(m, cr0, 4096 * d + x, 0x40_0000 * i + 0x1000 * j + o) == None
  {
    hide Word;
    EntryBits(d, x);
    EntryBits(f, b);
    AddressParts(i, j, o);
    hide Frame, Present, Large;
  }

  // An odd directory entry with bit 7 clear refers to a table.
  lemma ThroughTable(m: Memory, cr0: int, d: int, x: int, i: int, j: int, o: int, f: int, b: int, g: int, c: int)
    requires 0x8000_0000 <= cr0 < WORD && 0 <= x < 4096 && 0 <= j < 1024 && 0 <= o < 4096
    requires Word(m, 4096 * d + 4 * i) == 4096 * f + b && 0 <= b < 4096 && b % 2 == 1 && b % 256 < 128
    requires Word(m, 4096 * f + 4 * j) == 4096 * g + c && 0 <= c < 4096
    ensures Translate(m, cr0, 4096 * d + x, 0x40_0000 * i + 0x1000 * j + o) == if c % 2 == 1 then Some(4096 * g + o) else None
  {
    hide Word;
    EntryBits(d, x);
    EntryBits(f, b);
    EntryBits(g, c);
    AddressParts(i, j, o);
    hide Frame, Present, Large;
  }

  // An odd directory entry with bit 7 set is a page of 4M.
  lemma ThroughLarge(m: Memory, cr0: int, d: int, x: int, i: int, j: int, o: int, f: int, b: int)
    requires 0x8000_0000 <= cr0 < WORD && 0 <= x < 4096 && 0 <= j < 1024 && 0 <= o < 4096
    requires Word(m, 4096 * d + 4 * i) == 0x40_0000 * f + b && 0 <= b < 0x40_0000 && b % 2 == 1 && b % 256 >= 128
    ensures Translate(m, cr0, 4096 * d + x, 0x40_0000 * i + 0x1000 * j + o) == Some(0x40_0000 * f + 0x1000 * j + o)
  {
    hide Word;
    EntryBits(d, x);
    LowBits(f, b);
    EntryBits(1024 * f + b / 4096, b % 4096);
    QuotientIs(0x40_0000 * f + b, SUPERPAGE, f, b);
    AddressParts(i, j, o);
    hide Frame, Present, Large;
  }

  lemma LowBits(f: int, b: int)
    requires 0 <= b
    ensures 0x40_0000 * f + b == 4096 * (1024 * f + b / 4096) + b % 4096
    ensures b % 4096 % 2 == b % 2 && b % 4096 % 256 == b % 256
  {
    var q, r := b / 4096, b % 4096;
    QuotientIs(b, 2, 2048 * q + r / 2, r % 2);
    QuotientIs(b, 256, 16 * q + r / 256, r % 256);
  }

  // For example: the directory at 0x2000 whose entry 1 is 0x0010_3023, used before, and the table
  // at 0x0010_3000 whose entry 0 is 0x0040_0003; and the same with a page of 4M.
  lemma WalkExample()
    ensures var m: Memory := map[0x2004 := 0x23, 0x2005 := 0x30, 0x2006 := 0x10, 0x10_3000 := 0x03, 0x10_3002 := 0x40];
            Translate(m, 0x8000_0011, 0x2000, 0x40_0012) == Some(0x40_0012)
    ensures var m: Memory := map[0x2004 := 0x83, 0x2006 := 0xc0];
            Translate(m, 0x8000_0011, 0x2000, 0x40_0012) == Some(0xc0_0012)
  {
    var m: Memory := map[0x2004 := 0x23, 0x2005 := 0x30, 0x2006 := 0x10, 0x10_3000 := 0x03, 0x10_3002 := 0x40];
    assert Word(m, 0x2004) == 0x10_3023 && Word(m, 0x10_3000) == 0x40_0003;
    ThroughTable(m, 0x8000_0011, 2, 0, 1, 0, 0x12, 0x103, 0x23, 0x400, 3);
    var n: Memory := map[0x2004 := 0x83, 0x2006 := 0xc0];
    assert Word(n, 0x2004) == 0xc0_0083;
    ThroughLarge(n, 0x8000_0011, 2, 0, 1, 0, 0x12, 3, 0x83);
  }

  lemma SamePage(va: int, i: int, p: int)
    requires 0 <= va && 0 <= i && p >= 1 && va % p + i < p
    ensures (va + i) / p == va / p && (va + i) % p == va % p + i
  {
    var q, r := va / p, va % p;
    assert va + i == p * q + (r + i);
    QuotientIs(va + i, p, q, r + i);
  }

  lemma SmallInLarge(va: int, i: int)
    requires 0 <= va && 0 <= i && va % PAGE + i < PAGE
    ensures (va + i) / SUPERPAGE == va / SUPERPAGE
  {
    SamePage(va, i, PAGE);
    assert va / SUPERPAGE == va / PAGE / 1024 && (va + i) / SUPERPAGE == (va + i) / PAGE / 1024;
  }

  // One translation serves for the rest of the page.
  lemma SmallPage(m: Memory, cr0: int, cr3: int, va: int, pa: int, len: int)
    requires 0 <= va && Translate(m, cr0, cr3, va) == Some(pa) && len <= PAGE - va % PAGE
    requires PagingOn(cr0) && !Large(Word(m, PdeAddress(cr3, va)))
    ensures forall a :: va <= a < va + len ==> Translate(m, cr0, cr3, a) == Some(pa + (a - va))
  {
    hide Word, Present, Large, Frame;
    forall a | va <= a < va + len ensures Translate(m, cr0, cr3, a) == Some(pa + (a - va)) {
      SamePage(va, a - va, PAGE);
      SmallInLarge(va, a - va);
    }
  }

  lemma LargePage(m: Memory, cr0: int, cr3: int, va: int, pa: int, len: int)
    requires 0 <= va && Translate(m, cr0, cr3, va) == Some(pa) && len <= SUPERPAGE - va % SUPERPAGE
    requires PagingOn(cr0) && Large(Word(m, PdeAddress(cr3, va)))
    ensures forall a :: va <= a < va + len ==> Translate(m, cr0, cr3, a) == Some(pa + (a - va))
  {
    hide Word, Present, Large, Frame;
    forall a | va <= a < va + len ensures Translate(m, cr0, cr3, a) == Some(pa + (a - va)) {
      SamePage(va, a - va, SUPERPAGE);
    }
  }

  // ---- phys_addr_lookup

  class Machine {
    var mem: Memory
    const cr0: int
    const cr3: int

    constructor (m: Memory, c0: int, c3: int)
      ensures mem == m && cr0 == c0 && cr3 == c3
    {
      mem, cr0, cr3 := m, c0, c3;
    }

    ghost function Tr(va: int): Option<int>
      reads this
    {
      Translate(mem, cr0, cr3, va)
    }

    // len is 0 when va is not mapped; else the len bytes from va are at paddr, in one piece.
    method Lookup(va: int) returns (paddr: int, len: int)
      requires 0 <= va < WORD
      ensures 0 <= len < WORD && (len == 0 <==> Tr(va) == None)
      ensures len > 0 ==> Tr(va) == Some(paddr)
      ensures forall a :: va <= a < va + len ==> Tr(a) == Some(paddr + (a - va))
    {
      hide Word, Present, Large, Frame;
      var pde := Word(mem, Frame(cr3) + 4 * (va / SUPERPAGE));
      if !PagingOn(cr0) {
        return va, 0xffff_ffff;
      }
      if !Present(pde) {
        return 0, 0;
      }
      if !Large(pde) {
        var pte := Word(mem, Frame(pde) + 4 * (va / PAGE % 1024));
        var offs := va % PAGE;
        if !Present(pte) {
          return 0, 0;
        }
        paddr := Frame(pte) + offs;
        len := PAGE - offs;
        SmallPage(mem, cr0, cr3, va, paddr, len);
      } else {
        var offs := va % SUPERPAGE;
        paddr := pde - pde % SUPERPAGE + offs;
        len := SUPERPAGE - offs;
        LargePage(mem, cr0, cr3, va, paddr, len);
      }
    }

    // ---- gdb_copyin and gdb_copyout

    // -1 exactly when an address of the range is not mapped; on success every byte is the one
    // at its own translated address.
    method CopyIn(src: int, dest: array<Byte>, size: int) returns (r: int)
      requires 0 <= src && 0 <= size == dest.Length && src + size <= WORD
      modifies dest
      ensures r == 0 || r == -1
      ensures r == 0 <==> forall a :: src <= a < src + size ==> Tr(a) != None
      ensures r == 0 ==> forall a :: src <= a < src + size ==> dest[a - src] == Read(mem, Tr(a).value)
    {
      hide Translate, Read;
      var done := 0;
      while done < size
        invariant 0 <= done <= size
        invariant forall a :: src <= a < src + done ==> Tr(a) != None && dest[a - src] == Read(mem, Tr(a).value)
      {
        var pa, sz := Lookup(src + done);
        if sz == 0 {
          return -1;
        }
        if sz > size - done {
          sz := size - done;
        }
        var k := 0;
        while k < sz
          invariant 0 <= k <= sz
          invariant forall a :: src <= a < src + done + k ==> Tr(a) != None && dest[a - src] == Read(mem, Tr(a).value)
        {
          assert Tr(src + done + k) == Some(pa + k);
          dest[done + k] := Read(mem, pa + k);
          k := k + 1;
        }
        done := done + sz;
      }
      return 0;
    }

    // No byte of the range lies in a table entry its own translation depends on.
    ghost predicate Apart(dst: int, size: int)
      reads this
    {
      ApartIn(mem, cr0, cr3, dst, size)
    }

    method CopyOut(src: seq<Byte>, dst: int, size: int) returns (r: int)
      requires 0 <= dst && 0 <= size == |src| && dst + size <= WORD && Apart(dst, size)
      modifies this
      ensures r == 0 || r == -1
      ensures r == 0 <==> forall a :: dst <= a < dst + size ==> old(Tr(a)) != None
      ensures r == 0 ==> mem == Written(old(mem), cr0, cr3, dst, src, size)
      ensures r == -1 ==> exists k :: 0 <= k < size && old(Tr(dst + k)) == None && mem == Written(old(mem), cr0, cr3, dst, src, k)
    {
      hide Translate, ApartIn;
      ghost var m0 := mem;
      var done := 0;
      while done < size
        invariant 0 <= done <= size
        invariant forall a :: dst <= a < dst + done ==> Translate(m0, cr0, cr3, a) != None
        invariant mem == Written(m0, cr0, cr3, dst, src, done)
      {
        WrittenApart(m0, cr0, cr3, dst, src, size, done);
        var pa, sz := Lookup(dst + done);
        assert Tr(dst + done) == Translate(m0, cr0, cr3, dst + done) == old(Tr(dst + done));
        if sz == 0 {
          return -1;
        }
        if sz > size - done {
          sz := size - done;
        }
        forall a | dst + done <= a < dst + done + sz ensures Translate(m0, cr0, cr3, a) == Some(pa + (a - dst - done)) {
          assert Tr(a) == Some(pa + (a - (dst + done)));
          assert Tr(a) == Translate(m0, cr0, cr3, a);
        }
        var k := 0;
        while k < sz
          invariant 0 <= k <= sz
          invariant mem == Written(m0, cr0, cr3, dst, src, done + k)
        {
          assert Translate(m0, cr0, cr3, dst + done + k) == Some(pa + k);
          mem := mem[pa + k := src[done + k]];
          k := k + 1;
        }
        done := done + sz;
      }
      return 0;
    }

    // ---- early_mm_fill_pgdir, early_mm_map_region and early_mm_map_kernel

    method FillPgdir(pagedir: int, pagetab: int, count: int)
      requires 0 <= count <= 1024 && pagedir % PAGE == 0 && 0 <= pagetab && pagetab % PAGE == 0 && pagetab + count * PAGE <= WORD
      modifies this
      ensures Directory(mem, pagedir, pagetab, count)
      ensures forall b :: b < pagedir || b >= pagedir + PAGE ==> Read(mem, b) == Read(old(mem), b)
    {
      hide Read, Word, Store;
      var i := 0;
      while i < 1024
        invariant 0 <= i <= 1024
        invariant forall j :: 0 <= j < i ==> DirEntry(mem, pagedir, pagetab, count, j)
        invariant forall b :: b < pagedir || b >= pagedir + PAGE ==> Read(mem, b) == Read(old(mem), b)
      {
        ghost var before := mem;
        var w := if i < count then pagetab + i * PAGE + 3 else 0;
        EntryFits(pagetab, i, count);
        Stored(mem, pagedir + 4 * i, w);
        mem := Store(mem, pagedir + 4 * i, w);
        forall j | 0 <= j < i ensures DirEntry(mem, pagedir, pagetab, count, j) {
          assert DirEntry(before, pagedir, pagetab, count, j);
          SameWord(before, mem, pagedir + 4 * j);
        }
        i := i + 1;
      }
    }

    method MapRegion(pdir: int, ghost tab: int, start: int, end: int, flags: int)
      requires Directory(mem, pdir, tab, TABLES) && Placed(pdir, tab)
      requires 0 <= start && end <= LIMIT && start % PAGE == 0 && end % PAGE == 0 && (flags == 1 || flags == 3)
      modifies this
      ensures Directory(mem, pdir, tab, TABLES)
      ensures forall p :: start / PAGE <= p < end / PAGE ==> PageEntry(mem, tab, p) == p * PAGE + flags
      ensures forall p :: 0 <= p < PAGES && !(start / PAGE <= p < end / PAGE) ==> PageEntry(mem, tab, p) == PageEntry(old(mem), tab, p)
      ensures forall b :: b < tab || b >= tab + TABLES * PAGE ==> Read(mem, b) == Read(old(mem), b)
    {
      hide Read, Word, Store, Directory;
      var address := start;
      while address < end
        invariant start <= address && (address <= end || address == start) && address % PAGE == 0
        invariant Directory(mem, pdir, tab, TABLES)
        invariant forall p :: start / PAGE <= p < address / PAGE ==> PageEntry(mem, tab, p) == p * PAGE + flags
        invariant forall p :: 0 <= p < PAGES && !(start / PAGE <= p < address / PAGE) ==> PageEntry(mem, tab, p) == PageEntry(old(mem), tab, p)
        invariant forall b :: b < tab || b >= tab + TABLES * PAGE ==> Read(mem, b) == Read(old(mem), b)
        decreases end - address
      {
        ghost var before := mem;
        var pd_index := address / SUPERPAGE;
        var pt_index := address / PAGE % 1024;
        DirectoryAt(mem, pdir, tab, address);
        var ptable := Frame(Word(mem, pdir + 4 * pd_index));
        var w := Frame(address) + flags;
        Stored(mem, ptable + 4 * pt_index, w);
        mem := Store(mem, ptable + 4 * pt_index, w);
        DirectorySame(before, mem, pdir, tab, address / PAGE);
        forall p | 0 <= p < PAGES && p != address / PAGE ensures PageEntry(mem, tab, p) == PageEntry(before, tab, p) {
          SameWord(before, mem, tab + 4 * p);
        }
        NextPage(address);
        address := address + PAGE;
      }
    }

    method ClearTables(tab: int)
      modifies this
      ensures forall b :: tab <= b < tab + TABLES * PAGE ==> Read(mem, b) == 0
      ensures forall b :: b < tab || b >= tab + TABLES * PAGE ==> Read(mem, b) == Read(old(mem), b)
    {
      var i := 0;
      while i < TABLES * PAGE
        invariant 0 <= i <= TABLES * PAGE
        invariant forall b :: tab <= b < tab + i ==> Read(mem, b) == 0
        invariant forall b :: b < tab || b >= tab + TABLES * PAGE ==> Read(mem, b) == Read(old(mem), b)
      {
        ghost var before := mem;
        mem := mem[tab + i := 0];
        forall b | tab <= b < tab + i + 1 ensures Read(mem, b) == 0 {
          assert b < tab + i ==> Read(before, b) == 0;
        }
        forall b | b < tab || b >= tab + TABLES * PAGE ensures Read(mem, b) == Read(old(mem), b) {
          assert Read(before, b) == Read(old(mem), b);
        }
        i := i + 1;
      }
    }

    // Once paging is switched on with this directory, exactly the pages of the regions are
    // mapped, each to itself.
    method MapKernel(pgdir: int, pgtab: int, regions: seq<Region>)
      requires Placed(pgdir, pgtab) && AllOk(regions)
      modifies this
      ensures forall va, on :: 0 <= va < WORD && 0x8000_0000 <= on < WORD ==>
        Translate(mem, on, pgdir, va) == if Covered(regions, va / PAGE) then Some(va) else None
      // also when the processor has marked entries as used or written to
      ensures forall m, va, on :: 0 <= va < WORD && 0x8000_0000 <= on < WORD && Marked(mem, m, pgdir, pgtab) ==>
        Translate(m, on, pgdir, va) == if Covered(regions, va / PAGE) then Some(va) else None
      ensures forall b :: (b < pgtab || b >= pgtab + TABLES * PAGE) && (b < pgdir || b >= pgdir + PAGE) ==> Read(mem, b) == Read(old(mem), b)
    {
      hide Read, Word, Directory, PageEntry, Translate, Marked;
      ClearTables(pgtab);
      ghost var cleared := mem;
      FillPgdir(pgdir, pgtab, TABLES);
      ZeroEntries(cleared, mem, pgdir, pgtab);
      ghost var before0 := mem;
      FirstPage(mem, pgtab);
      mem := Store(mem, pgtab, 0);
      SameTables(before0, mem, pgdir, pgtab);
      var k := 0;
      while k < |regions|
        invariant 0 <= k <= |regions| && Directory(mem, pgdir, pgtab, TABLES)
        invariant MapsOnly(mem, pgtab, regions[..k])
        invariant forall b :: (b < pgtab || b >= pgtab + TABLES * PAGE) && (b < pgdir || b >= pgdir + PAGE) ==> Read(mem, b) == Read(old(mem), b)
      {
        ghost var before := mem;
        var r := regions[k];
        MapRegion(pgdir, pgtab, r.start, r.end, r.flags);
        MapsMore(before, mem, pgtab, regions, k);
        k := k + 1;
      }
      assert regions[..k] == regions;
      NotYetMarked(mem, pgdir, pgtab);
      forall m, va, on | 0 <= va < WORD && 0x8000_0000 <= on < WORD && Marked(mem, m, pgdir, pgtab)
        ensures Translate(m, on, pgdir, va) == if Covered(regions, va / PAGE) then Some(va) else None
      {
        TranslatesToItself(mem, m, pgdir, pgtab, regions, va, on);
      }
    }
  }

  const TABLES := 64
  const PAGES := 0x1_0000
  const LIMIT := 0x1000_0000

  // Entry j of a directory whose first `count` entries refer to consecutive tables.
  ghost predicate DirEntry(m: Memory, pagedir: int, pagetab: int, count: int, j: int) {
    Word(m, pagedir + 4 * j) == if j < count then pagetab + j * PAGE + 3 else 0
  }

  ghost predicate Directory(m: Memory, pagedir: int, pagetab: int, count: int) {
    forall j :: 0 <= j < 1024 ==> DirEntry(m, pagedir, pagetab, count, j)
  }

  lemma EntryFits(pagetab: int, i: int, count: int)
    requires 0 <= pagetab && pagetab % PAGE == 0 && pagetab + count * PAGE <= WORD && 0 <= i
    ensures i < count ==> 0 <= pagetab + i * PAGE + 3 < WORD
  {}

  // The directory and the tables are page-aligned, inside memory and do not overlap.
  ghost predicate Placed(pdir: int, tab: int) {
    && 0 <= pdir && pdir % PAGE == 0 && pdir + PAGE <= WORD && 0 <= tab && tab % PAGE == 0 && tab + TABLES * PAGE <= WORD
    && (pdir + PAGE <= tab || tab + TABLES * PAGE <= pdir)
  }

  // The table entry of page p.
  function PageEntry(m: Memory, tab: int, p: int): int {
    Word(m, tab + 4 * p)
  }

  lemma DirectoryAt(m: Memory, pdir: int, tab: int, address: int)
    requires Directory(m, pdir, tab, TABLES) && Placed(pdir, tab) && 0 <= address < LIMIT && address % PAGE == 0
    ensures Frame(Word(m, pdir + 4 * (address / SUPERPAGE))) + 4 * (address / PAGE % 1024) == tab + 4 * (address / PAGE)
    ensures Frame(address) == address == address / PAGE * PAGE && 0 <= address / PAGE < PAGES
  {
    hide Word;
    var j := address / SUPERPAGE;
    assert DirEntry(m, pdir, tab, TABLES, j);
    assert j == address / PAGE / 1024;
    assert (tab + j * PAGE + 3) % PAGE == 3;
  }

  lemma DirectorySame(m: Memory, m': Memory, pdir: int, tab: int, p: int)
    requires Directory(m, pdir, tab, TABLES) && Placed(pdir, tab) && 0 <= p < PAGES
    requires forall b :: b < tab + 4 * p || b >= tab + 4 * p + 4 ==> Read(m', b) == Read(m, b)
    ensures Directory(m', pdir, tab, TABLES)
  {
    hide Read, Word;
    forall j | 0 <= j < 1024 ensures DirEntry(m', pdir, tab, TABLES, j) {
      assert DirEntry(m, pdir, tab, TABLES, j);
      SameWord(m, m', pdir + 4 * j);
    }
  }

  lemma NextPage(address: int)
    requires address % PAGE == 0
    ensures (address + PAGE) / PAGE == address / PAGE + 1 && (address + PAGE) % PAGE == 0
  {}

  datatype Region = Region(start: int, end: int, flags: int)

  // early_mm.c maps from the second page to the end of the supported memory.
  predicate RegionOk(r: Region) {
    PAGE <= r.start && r.end <= LIMIT && r.start % PAGE == 0 && r.end % PAGE == 0 && (r.flags == 1 || r.flags == 3)
  }

  ghost predicate AllOk(regions: seq<Region>) {
    forall i :: 0 <= i < |regions| ==> RegionOk(regions[i])
  }

  predicate Covers(r: Region, p: int) {
    r.start / PAGE <= p < r.end / PAGE
  }

  predicate Covered(regions: seq<Region>, p: int) {
    exists i :: 0 <= i < |regions| && Covers(regions[i], p)
  }

  ghost predicate MapsPage(m: Memory, tab: int, regions: seq<Region>, p: int) {
    var e := PageEntry(m, tab, p);
    if Covered(regions, p) then e == p * PAGE + 1 || e == p * PAGE + 3 else e == 0
  }

  ghost predicate MapsOnly(m: Memory, tab: int, regions: seq<Region>) {
    forall p :: 0 <= p < PAGES ==> MapsPage(m, tab, regions, p)
  }

  lemma ZeroEntries(m: Memory, m': Memory, pdir: int, tab: int)
    requires Placed(pdir, tab) && forall b :: tab <= b < tab + TABLES * PAGE ==> Read(m, b) == 0
    requires forall b :: b < pdir || b >= pdir + PAGE ==> Read(m', b) == Read(m, b)
    ensures MapsOnly(m', tab, [])
  {
    forall p | 0 <= p < PAGES ensures MapsPage(m', tab, [], p) {
      var a := tab + 4 * p;
      assert Read(m', a) == 0 && Read(m', a + 1) == 0 && Read(m', a + 2) == 0 && Read(m', a + 3) == 0;
    }
  }

  // pgtab[0] = 0 changes nothing once the tables are cleared.
  lemma FirstPage(m: Memory, tab: int)
    requires MapsOnly(m, tab, [])
    ensures forall b :: Read(Store(m, tab, 0), b) == Read(m, b)
  {
    assert MapsPage(m, tab, [], 0);
    assert Word(m, tab) == 0;
  }

  lemma SameTables(m: Memory, m': Memory, pdir: int, tab: int)
    requires forall b :: Read(m', b) == Read(m, b)
    ensures MapsOnly(m, tab, []) ==> MapsOnly(m', tab, [])
    ensures Directory(m, pdir, tab, TABLES) ==> Directory(m', pdir, tab, TABLES)
  {
    hide Read, Word;
    forall p ensures PageEntry(m', tab, p) == PageEntry(m, tab, p) {
      SameWord(m, m', tab + 4 * p);
    }
    forall j ensures DirEntry(m', pdir, tab, TABLES, j) == DirEntry(m, pdir, tab, TABLES, j) {
      SameWord(m, m', pdir + 4 * j);
    }
    if MapsOnly(m, tab, []) {
      forall p | 0 <= p < PAGES ensures MapsPage(m', tab, [], p) { assert MapsPage(m, tab, [], p); }
    }
  }

  lemma MapsMore(m: Memory, m': Memory, tab: int, regions: seq<Region>, k: nat)
    requires k < |regions| && RegionOk(regions[k]) && MapsOnly(m, tab, regions[..k])
    requires forall p :: Covers(regions[k], p) ==> PageEntry(m', tab, p) == p * PAGE + regions[k].flags
    requires forall p :: 0 <= p < PAGES && !Covers(regions[k], p) ==> PageEntry(m', tab, p) == PageEntry(m, tab, p)
    ensures MapsOnly(m', tab, regions[..k + 1])
  {
    hide PageEntry;
    var more := regions[..k + 1];
    forall p | 0 <= p < PAGES ensures MapsPage(m', tab, more, p) {
      assert MapsPage(m, tab, regions[..k], p);
      CoveredMore(regions, k, p);
    }
  }

  lemma CoveredMore(regions: seq<Region>, k: nat, p: int)
    requires k < |regions|
    ensures Covered(regions[..k + 1], p) <==> Covered(regions[..k], p) || Covers(regions[k], p)
  {
    if Covered(regions[..k], p) {
      var i :| 0 <= i < k && Covers(regions[..k][i], p);
      assert Covers(regions[..k + 1][i], p);
    }
    if Covers(regions[k], p) { assert Covers(regions[..k + 1][k], p); }
    if Covered(regions[..k + 1], p) {
      var i :| 0 <= i < k + 1 && Covers(regions[..k + 1][i], p);
      assert i < k ==> Covers(regions[..k][i], p);
    }
  }

  // Bits 5 and 6 of an entry, which the processor sets: used, and written to.
  predicate Marks(s: int) {
    s == 0 || s == 32 || s == 64 || s == 96
  }

  ghost predicate MarkedEntry(m: Memory, m': Memory, a: int) {
    Word(m', a) == Word(m, a) || (Word(m, a) % 2 == 1 && Marks(Word(m', a) - Word(m, a)))
  }

  // m' is m after the processor has used the tables.
  ghost predicate Marked(m: Memory, m': Memory, pdir: int, tab: int) {
    && (forall i :: 0 <= i < 1024 ==> MarkedEntry(m, m', pdir + 4 * i))
    && forall p :: 0 <= p < PAGES ==> MarkedEntry(m, m', tab + 4 * p)
  }

  lemma NotYetMarked(m: Memory, pdir: int, tab: int)
    ensures Marked(m, m, pdir, tab)
  {
    hide Word;
  }

  lemma TranslatesToItself(m0: Memory, m: Memory, pdir: int, tab: int, regions: seq<Region>, va: int, on: int)
    requires Directory(m0, pdir, tab, TABLES) && Placed(pdir, tab) && MapsOnly(m0, tab, regions) && Marked(m0, m, pdir, tab)
    requires AllOk(regions)
    requires 0 <= va < WORD && 0x8000_0000 <= on < WORD
    ensures Translate(m, on, pdir, va) == if Covered(regions, va / PAGE) then Some(va) else None
  {
    hide Word, Frame, Present, Large, Covered, AllOk, Translate;
    var i, p := va / SUPERPAGE, va / PAGE;
    var j, o, d, g := p % 1024, va % PAGE, pdir / PAGE, tab / PAGE;
    Indices(va, pdir, tab);
    CoveredRange(regions, p);
    assert DirEntry(m0, pdir, tab, TABLES, i);
    assert MarkedEntry(m0, m, pdir + 4 * i);
    if i < TABLES {
      var w := Word(m0, tab + 4 * p);
      assert MapsPage(m0, tab, regions, p);
      assert MarkedEntry(m0, m, tab + 4 * p);
      var s, s' := Word(m, pdir + 4 * i) - 4096 * (g + i) - 3, Word(m, tab + 4 * p) - w;
      OddEntry(g + i, 3);
      OddEntry(p, 1);
      OddEntry(p, 3);
      if Covered(regions, p) {
        ThroughTable(m, on, d, 0, i, j, o, g + i, 3 + s, p, w - 4096 * p + s');
      } else {
        ThroughTable(m, on, d, 0, i, j, o, g + i, 3 + s, 0, 0);
      }
    } else {
      NoTable(m, on, d, 0, i, j, o, 0, 0);
    }
  }

  lemma OddEntry(f: int, b: int)
    requires b == 1 || b == 3
    ensures (4096 * f + b) % 2 == 1
    ensures forall s :: Marks(s) ==> (b + s) % 2 == 1 && (b + s) % 256 < 128 && 0 <= b + s < 4096
  {
    QuotientIs(4096 * f + b, 2, 2048 * f + b / 2, 1);
  }

  lemma Indices(va: int, pdir: int, tab: int)
    requires 0 <= va < WORD && Placed(pdir, tab)
    ensures var i, p, d, g := va / SUPERPAGE, va / PAGE, pdir / PAGE, tab / PAGE;
            var j, o := p % 1024, va % PAGE;
            && 0 <= i < 1024 && 0 <= p && (i < TABLES <==> p < PAGES) && 0 <= j < 1024 && 0 <= o < 4096
            && va == 0x40_0000 * i + 0x1000 * j + o && va == 4096 * p + o
            && pdir == 4096 * d && tab == 4096 * g && 4096 * (g + i) + 4 * j == tab + 4 * p
  {
    var i, p := va / SUPERPAGE, va / PAGE;
    assert i == p / 1024;
  }

  lemma CoveredRange(regions: seq<Region>, p: int)
    requires AllOk(regions)
    ensures Covered(regions, p) ==> 1 <= p < PAGES
  {}

  // The first page is never mapped, so a null pointer is not.
  lemma NullUnmapped(regions: seq<Region>, va: int)
    requires AllOk(regions) && 0 <= va < PAGE
    ensures !Covered(regions, va / PAGE)
  {
    CoveredRange(regions, va / PAGE);
  }

  // The first n bytes of src stored one by one, each at the address its own virtual address
  // had at the start.
  function Written(m: Memory, cr0: int, cr3: int, dst: int, src: seq<Byte>, n: int): Memory
    requires n <= |src|
  {
    if n <= 0 then m
    else
      var before := Written(m, cr0, cr3, dst, src, n - 1);
      match Translate(m, cr0, cr3, dst + (n - 1))
      case None => before
      case Some(pa) => before[pa := src[n - 1]]
  }

  ghost predicate ApartIn(m: Memory, cr0: int, cr3: int, dst: int, size: int) {
    forall a, b :: dst <= a < dst + size && dst <= b < dst + size && Translate(m, cr0, cr3, a) != None ==>
      !Consulted(m, cr0, cr3, b, Translate(m, cr0, cr3, a).value)
  }

  // A write elsewhere changes no translation of the range.
  lemma {:induction false} WrittenApart(m: Memory, cr0: int, cr3: int, dst: int, src: seq<Byte>, size: int, n: int)
    requires 0 <= n <= size == |src| && ApartIn(m, cr0, cr3, dst, size)
    ensures var m' := Written(m, cr0, cr3, dst, src, n);
            forall b :: dst <= b < dst + size ==> Translate(m', cr0, cr3, b) == Translate(m, cr0, cr3, b)
  {
    var m' := Written(m, cr0, cr3, dst, src, n);
    forall b | dst <= b < dst + size ensures Translate(m', cr0, cr3, b) == Translate(m, cr0, cr3, b) {
      forall a | Consulted(m, cr0, cr3, b, a) ensures Read(m', a) == Read(m, a) {
        WrittenRead(m, cr0, cr3, dst, src, n, a, b, size);
      }
      TranslateSame(m, m', cr0, cr3, b);
    }
  }

  lemma {:induction false} WrittenRead(m: Memory, cr0: int, cr3: int, dst: int, src: seq<Byte>, n: int, a: int, b: int, size: int)
    requires 0 <= n <= size == |src| && dst <= b < dst + size && ApartIn(m, cr0, cr3, dst, size)
    requires Consulted(m, cr0, cr3, b, a)
    ensures Read(Written(m, cr0, cr3, dst, src, n), a) == Read(m, a)
  {
    if n > 0 {
      WrittenRead(m, cr0, cr3, dst, src, n - 1, a, b, size);
    }
  }

  // What was copied out reads back, byte for byte, where no later byte of the range shares
  // its physical address.
  lemma {:induction false} WrittenReadsBack(m: Memory, cr0: int, cr3: int, dst: int, src: seq<Byte>, n: int, a: int)
    requires dst <= a < dst + n && 0 <= n <= |src| && Translate(m, cr0, cr3, a) != None
    requires forall b :: a < b < dst + n ==> Translate(m, cr0, cr3, b) != Translate(m, cr0, cr3, a)
    ensures Read(Written(m, cr0, cr3, dst, src, n), Translate(m, cr0, cr3, a).value) == src[a - dst]
  {
    if a < dst + n - 1 {
      WrittenReadsBack(m, cr0, cr3, dst, src, n - 1, a);
    }
  }
}
