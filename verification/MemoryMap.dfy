/** The memory map the boot-time tables are to realise, address by address, and the proof that the
    tables built by TableBuilder do: every address translates as the map says, the tables form a
    tree, and no leaf of it is unsafe. */
module MemoryMap {
  import opened Descriptors
  import opened TableTree
  import opened TableBuilder

  // ---- The memory map ---------------------------------------------------------------------

  /** What the kernel's half is to contain, by offset from its base. */
  function Region(l: Layout, delta: bv64, o: bv64): Target {
    if Lt(o, 0x0800_0000) then Unmapped
    else if Lt(o, 0x0802_0000) then To(o, LeafBits(Device))
    else if Lt(o, 0x0900_0000) then Unmapped
    else if Lt(o, 0x0900_4000) then To(o, LeafBits(Device))
    else if Lt(o, 0x4000_0000) then Unmapped
    else if Lt(o, 0x4200_0000) then ImageRegion(l, delta, o)
    else if Lt(o, 0x6000_0000) then To(o, LeafBits(Rw))
    else if Lt(o, 0x6200_0000) then To(o, LeafBits(Device))
    else Unmapped
  }

  /** The 32 MiB around the image: the DTB window below it, then its sections, then free RAM. */
  function ImageRegion(l: Layout, delta: bv64, o: bv64): Target {
    if Lt(o, TEXT_START) then To(o, LeafBits(Ro))
    else if Lt(o, l.textEnd) then To(Moved(o, delta), LeafBits(TextRx))
    else if Lt(o, l.rodataEnd) then To(Moved(o, delta), LeafBits(Ro))
    else if Lt(o, l.guardBottom) then To(Moved(o, delta), LeafBits(Rw))
    else if Lt(o, l.stackBottom) then Unmapped
    else if Lt(o, l.stackTop) then To(Moved(o, delta), LeafBits(Rw))
    else To(o, LeafBits(Rw))
  }

  // Where an address lies, from its indices.

  function Offset(va: bv64): bv64 { va & 0x0000_FFFF_FFFF_FFFF }

  lemma BeyondTrunk(va: bv64)
    requires Index(0, va) != 0 || Index(1, va) != 0
    ensures 0x6200_0000 <= Offset(va)
  {
  }

  lemma InSlot(va: bv64)
    requires Index(0, va) == 0 && Index(1, va) == 0
    ensures Offset(va) == Output(2, SlotBase(Index(2, va)), va)
  {
  }

  lemma RamBounds(i: bv64, r: bv64)
    requires RamSlot(i)
    ensures 0x4200_0000 <= Output(2, SlotBase(i), r) < 0x6000_0000
  {
  }

  lemma WindowBounds(r: bv64)
    ensures 0x6000_0000 <= Output(2, RAM_END, r) < 0x6200_0000 && RAM_END == SlotBase(48)
  {
  }

  lemma OtherSlot(i: bv64, r: bv64)
    requires i & 0x7FF == i && i != 4 && i != 32 && !RamSlot(i) && i != 48
    ensures var o := Output(2, SlotBase(i), r); o < 0x0800_0000 || 0x0A00_0000 <= o < 0x4000_0000 || 0x6200_0000 <= o
  {
  }

  lemma ImageBits(va: bv64)
    requires (va >> 47) & 1 == 0 && (va >> 36) & 0x7FF == 0 && (va >> 25) & 0x7FF == 32
    ensures va & 0x0000_FFFF_FFFF_FFFF == (0x4000_0000 + (((va >> 14) & 0x7FF) << 14)) | (va & 0x3FFF)
    ensures 0x4000_0000 <= va & 0x0000_FFFF_FFFF_FFFF < 0x4200_0000
  {
  }

  lemma InImage(va: bv64)
    requires Index(0, va) == 0 && Index(1, va) == 0 && Index(2, va) == 32
    ensures 0x4000_0000 <= Offset(va) < 0x4200_0000 && Offset(va) == Output(3, ImagePage(Index(3, va)), va)
  {
    ImageBits(va);
  }

  lemma InMmio(va: bv64)
    requires Index(0, va) == 0 && Index(1, va) == 0 && Index(2, va) == 4
    ensures 0x0800_0000 <= Offset(va) < 0x0A00_0000 && Offset(va) == Output(3, GicPage(Index(3, va)), va)
  {
  }

  lemma MmioPages(va: bv64)
    requires Index(0, va) == 0 && Index(1, va) == 0 && Index(2, va) == 4
    ensures Lt(Index(3, va), 8) <==> Offset(va) < 0x0802_0000
    ensures Index(3, va) == 1024 <==> 0x0900_0000 <= Offset(va) < 0x0900_4000
    ensures Index(3, va) == 1024 ==> GicPage(Index(3, va)) == UART0_BASE
  {
  }

  // What the memory map says there.

  lemma RegionElsewhere(l: Layout, delta: bv64, o: bv64)
    requires o < 0x0800_0000 || 0x0A00_0000 <= o < 0x4000_0000 || 0x6200_0000 <= o
    ensures Region(l, delta, o) == Unmapped
  {
    hide ImageRegion, LeafBits;
  }

  lemma RegionRam(l: Layout, delta: bv64, o: bv64)
    requires 0x4200_0000 <= o < 0x6000_0000
    ensures Region(l, delta, o) == To(o, LeafBits(Rw))
  {
    hide ImageRegion, LeafBits;
  }

  lemma RegionWindow(l: Layout, delta: bv64, o: bv64)
    requires 0x6000_0000 <= o < 0x6200_0000
    ensures Region(l, delta, o) == To(o, LeafBits(Device))
  {
    hide ImageRegion, LeafBits;
  }

  lemma RegionImage(l: Layout, delta: bv64, o: bv64)
    requires 0x4000_0000 <= o < 0x4200_0000
    ensures Region(l, delta, o) == ImageRegion(l, delta, o)
  {
    hide ImageRegion, LeafBits;
  }

  lemma RegionMmio(l: Layout, delta: bv64, o: bv64)
    requires 0x0800_0000 <= o < 0x0A00_0000
    ensures Region(l, delta, o) ==
      if o < 0x0802_0000 || 0x0900_0000 <= o < 0x0900_4000 then To(o, LeafBits(Device)) else Unmapped
  {
    hide ImageRegion, LeafBits;
  }

  lemma BelowBoundary(p: bv64, r: bv64, t: bv64)
    requires p & 0x3FFF == 0 && t & 0x3FFF == 0 && p | (r & 0x3FFF) < t
    ensures p < t
  {
  }

  lemma PageBelowBoundary(p: bv64, r: bv64, t: bv64)
    requires p & 0x3FFF == 0 && t & 0x3FFF == 0 && p < t
    ensures p | (r & 0x3FFF) < t
  {
  }

  /** Section boundaries never split a page. */
  lemma Boundary(p: bv64, r: bv64, t: bv64)
    requires Aligned(p) && OnGranule(t)
    ensures Lt(p, t) <==> Lt(p | (r & 0x3FFF), t)
  {
    if p < t { PageBelowBoundary(p, r, t); }
    if p | (r & 0x3FFF) < t { BelowBoundary(p, r, t); }
  }

  lemma AlignedSum(p: bv64, d: bv64)
    requires Aligned(p) && Aligned(d)
    ensures Aligned(Moved(p, d))
  {
  }

  lemma SmallSum(p: bv64, d: bv64)
    requires p < 0x4200_0000 && d <= 0x0000_FFFF_BE00_0000
    ensures p + d < 0x1_0000_0000_0000
  {
  }

  lemma AlignedFits(p: bv64)
    requires Aligned(p) && p < 0x1_0000_0000_0000
    ensures PageAligned(p)
  {
  }

  lemma MovedPageAligned(pa: bv64, delta: bv64)
    requires Aligned(pa) && pa < 0x4200_0000 && Displacement(delta)
    ensures PageAligned(Moved(pa, delta))
  {
    hide Aligned, PageAligned;
    AlignedSum(pa, delta);
    SmallSum(pa, delta);
    AlignedFits(pa + delta);
  }

  // A displacement by whole pages acts on the page part of an address only. Bit arithmetic and
  // definitions are kept in separate lemmas: the solver does either quickly, but not both at once.

  lemma ShiftedSum(p: bv64, d: bv64, r: bv64)
    ensures ((p << 14) + (d << 14)) | (r & 0x3FFF) == ((p << 14) | (r & 0x3FFF)) + (d << 14)
  {
  }

  lemma WholePages(p: bv64)
    requires p & 0x3FFF == 0
    ensures (p >> 14) << 14 == p
  {
  }

  lemma AlignedSumBits(a: bv64, d: bv64, r: bv64)
    requires a & 0x3FFF == 0 && d & 0x3FFF == 0
    ensures (a + d) | (r & 0x3FFF) == (a | (r & 0x3FFF)) + d
  {
    WholePages(a);
    WholePages(d);
    ShiftedSum(a >> 14, d >> 14, r);
  }

  lemma MovedBits(a: bv64, d: bv64, r: bv64)
    requires Aligned(a) && Aligned(d)
    ensures Moved(a, d) | (r & 0x3FFF) == Moved(a | (r & 0x3FFF), d)
  {
    AlignedSumBits(a, d, r);
  }

  lemma OutputIsOr(a: bv64, r: bv64)
    ensures Output(3, a, r) == a | (r & 0x3FFF)
  {
  }

  /** A displaced page displaces each of its addresses alike. */
  lemma MovedOutput(pa: bv64, delta: bv64, r: bv64)
    requires Aligned(pa) && Aligned(delta)
    ensures Output(3, Moved(pa, delta), r) == Moved(Output(3, pa, r), delta)
  {
    hide Output, Moved, Aligned;
    OutputIsOr(pa, r);
    OutputIsOr(Moved(pa, delta), r);
    MovedBits(pa, delta, r);
  }

  lemma IndexFits(va: bv64)
    ensures Index(2, va) & 0x7FF == Index(2, va) && Index(3, va) & 0x7FF == Index(3, va)
  {
  }

  lemma FitsTable(j: bv64)
    requires j & 0x7FF == j
    ensures Lt(j, 2048)
  {
  }

  /** The granules of the 32 MiB around the image, and its end. */
  predicate ImageGranule(a: bv64) { a & 0x43FF_C000 == a }

  lemma GranuleOrder(o: bv64, t: bv64, t1: bv64)
    requires o & 0x43FF_C000 == o && t & 0x43FF_C000 == t && t1 & 0x43FF_C000 == t1 && o < t && t <= t1
    ensures o < t1
  {
  }

  lemma LtTransitive(o: bv64, t: bv64, t1: bv64)
    requires ImageGranule(o) && ImageGranule(t) && ImageGranule(t1) && Lt(o, t) && Le(t, t1)
    ensures Lt(o, t1)
  {
    GranuleOrder(o, t, t1);
  }

  lemma BoundaryIsGranule(t: bv64)
    requires OnGranule(t)
    ensures ImageGranule(t)
  {
  }

  lemma TextStartIsBoundary(l: Layout)
    requires OnGranule(l.textEnd)
    ensures OnGranule(TEXT_START) && Le(TEXT_START, l.textEnd)
  {
  }

  /** The sections follow one another. */
  lemma SectionsInOrder(l: Layout, pa: bv64)
    requires Linked16K(l) && ImageGranule(pa)
    ensures Lt(pa, TEXT_START) ==> Lt(pa, l.textEnd)
    ensures Lt(pa, l.textEnd) ==> Lt(pa, l.rodataEnd)
    ensures Lt(pa, l.rodataEnd) ==> Lt(pa, l.guardBottom)
    ensures Lt(pa, l.guardBottom) ==> Lt(pa, l.stackBottom)
    ensures Lt(pa, l.stackBottom) ==> Lt(pa, l.stackTop)
  {
    hide Lt, Le, OnGranule, ImageGranule;
    TextStartIsBoundary(l);
    BoundaryIsGranule(TEXT_START);
    BoundaryIsGranule(l.textEnd);
    BoundaryIsGranule(l.rodataEnd);
    BoundaryIsGranule(l.guardBottom);
    BoundaryIsGranule(l.stackBottom);
    BoundaryIsGranule(l.stackTop);
    if Lt(pa, TEXT_START) { LtTransitive(pa, TEXT_START, l.textEnd); }
    if Lt(pa, l.textEnd) { LtTransitive(pa, l.textEnd, l.rodataEnd); }
    if Lt(pa, l.rodataEnd) { LtTransitive(pa, l.rodataEnd, l.guardBottom); }
    if Lt(pa, l.guardBottom) { LtTransitive(pa, l.guardBottom, l.stackBottom); }
    if Lt(pa, l.stackBottom) { LtTransitive(pa, l.stackBottom, l.stackTop); }
  }

  /** A page lies in the section each of its addresses lies in. */
  lemma SectionsOfPage(l: Layout, pa: bv64, va: bv64)
    requires Linked16K(l) && Aligned(pa)
    ensures var o := pa | (va & 0x3FFF);
      && (Lt(pa, TEXT_START) <==> Lt(o, TEXT_START))
      && (Lt(pa, l.textEnd) <==> Lt(o, l.textEnd)) && (Lt(pa, l.rodataEnd) <==> Lt(o, l.rodataEnd))
      && (Lt(pa, l.guardBottom) <==> Lt(o, l.guardBottom)) && (Lt(pa, l.stackBottom) <==> Lt(o, l.stackBottom))
      && (Lt(pa, l.stackTop) <==> Lt(o, l.stackTop))
  {
    hide OnGranule, Lt, Le, Aligned;
    TextStartIsBoundary(l);
    Boundary(pa, va, TEXT_START);
    Boundary(pa, va, l.textEnd);
    Boundary(pa, va, l.rodataEnd);
    Boundary(pa, va, l.guardBottom);
    Boundary(pa, va, l.stackBottom);
    Boundary(pa, va, l.stackTop);
  }

  lemma KernelOutIsPage(l: Layout, delta: bv64, pa: bv64)
    requires Aligned(pa) && pa < 0x4200_0000 && Displacement(delta)
    ensures PageAligned(KernelOut(l, delta, pa))
  {
    hide Moved, Lt, Aligned, PageAligned, Displacement;
    MovedPageAligned(pa, delta);
    SmallFits(pa);
    AlignedFits(pa);
  }

  lemma SmallFits(pa: bv64)
    requires pa < 0x4200_0000
    ensures pa < 0x1_0000_0000_0000
  {
  }

  /** The section of a page decides what its addresses translate to. */
  lemma ImagePageRegion(l: Layout, delta: bv64, pa: bv64, va: bv64)
    requires Linked16K(l) && Aligned(delta) && Aligned(pa) && ImageGranule(pa)
    ensures ImageRegion(l, delta, Output(3, pa, va)) == match KernelAttr(l, pa)
      case None => Unmapped
      case Some(a) => To(Output(3, KernelOut(l, delta, pa), va), LeafBits(a))
  {
    hide LeafBits, Output, Moved, Lt, Linked16K, ImageGranule, Aligned;
    SectionsOfPage(l, pa, va);
    SectionsInOrder(l, pa);
    OutputIsOr(pa, va);
    MovedOutput(pa, delta, va);
  }

  // ---- The built tree, entry by entry -----------------------------------------------------------

  lemma RootEntry(t: Tables, l: Layout, delta: bv64, i: bv64)
    requires Placed(t)
    ensures EntryAt(Built(t, l, delta), 0, t.l0, i) == if i == 0 then Next(t.l1) else Hole
  {
    hide Built, LeafContents, Read, TableDesc, Placed, PageAligned, Decode;
    TablesApart(t);
    BuiltRead(t, l, delta, t.l0, i);
    TableRoundTrip(t.l1, 0);
    ZeroIsHole(0);
  }

  lemma L1Entry(t: Tables, l: Layout, delta: bv64, i: bv64)
    requires Placed(t)
    ensures EntryAt(Built(t, l, delta), 1, t.l1, i) == if i == 0 then Next(t.l2) else Hole
  {
    hide Built, LeafContents, Read, TableDesc, Placed, PageAligned, Decode;
    TablesApart(t);
    BuiltRead(t, l, delta, t.l1, i);
    TableRoundTrip(t.l2, 1);
    ZeroIsHole(1);
  }

  lemma L2Entry(t: Tables, l: Layout, delta: bv64, i: bv64)
    requires Placed(t)
    ensures EntryAt(Built(t, l, delta), 2, t.l2, i) ==
      if i == 4 then Next(t.l3Mmio)
      else if i == 32 then Next(t.l3Kernel)
      else if RamSlot(i) then Leaf(SlotBase(i), LeafBits(Rw))
      else if i == 48 then Leaf(RAM_END, LeafBits(Device))
      else Hole
  {
    hide Built, Read, TableDesc, BlockDesc, LeafBits, Placed, PageAligned, BlockAligned, Decode, RamSlot, SlotBase, KernelDesc, MmioDesc;
    TablesApart(t);
    BuiltRead(t, l, delta, t.l2, i);
    TableRoundTrip(t.l3Mmio, 2);
    TableRoundTrip(t.l3Kernel, 2);
    if RamSlot(i) {
      BlocksAligned(i);
      BlockRoundTrip(SlotBase(i), Rw, 2);
    }
    RamEndAligned();
    BlockRoundTrip(RAM_END, Device, 2);
    ZeroIsHole(2);
  }

  lemma BlocksAligned(i: bv64)
    requires RamSlot(i)
    ensures BlockAligned(SlotBase(i))
  {
  }

  lemma RamEndAligned()
    ensures BlockAligned(RAM_END)
  {
  }

  lemma KernelEntry(t: Tables, l: Layout, delta: bv64, i: bv64)
    requires Placed(t) && Displacement(delta)
    ensures EntryAt(Built(t, l, delta), 3, t.l3Kernel, i) ==
      var pa := ImagePage(i);
      if !Lt(i, 2048) || KernelAttr(l, pa).None? then Hole
      else Leaf(KernelOut(l, delta, pa), LeafBits(KernelAttr(l, pa).value))
  {
    hide Built, Read, LeafBits, PageDesc, Placed, PageAligned, Decode, Lt, KernelAttr, KernelOut, Displacement, ImagePage, Aligned, MmioDesc, L2Desc;
    TablesApart(t);
    BuiltRead(t, l, delta, t.l3Kernel, i);
    var pa := ImagePage(i);
    if Lt(i, 2048) && KernelAttr(l, pa).Some? {
      ImagePages(i);
      KernelOutIsPage(l, delta, pa);
      PageRoundTrip(KernelOut(l, delta, pa), KernelAttr(l, pa).value);
    }
    ZeroIsHole(3);
  }

  lemma ImagePages(i: bv64)
    requires Lt(i, 2048)
    ensures Aligned(ImagePage(i)) && ImagePage(i) < 0x4200_0000 && ImageGranule(ImagePage(i))
  {
  }

  lemma MmioEntry(t: Tables, l: Layout, delta: bv64, i: bv64)
    requires Placed(t)
    ensures EntryAt(Built(t, l, delta), 3, t.l3Mmio, i) ==
      if Lt(i, 8) then Leaf(GicPage(i), LeafBits(Device))
      else if i == 1024 then Leaf(UART0_BASE, LeafBits(Device))
      else Hole
  {
    hide Built, Read, LeafBits, PageDesc, Placed, PageAligned, Decode, Lt, GicPage, KernelDesc, L2Desc;
    TablesApart(t);
    BuiltRead(t, l, delta, t.l3Mmio, i);
    if Lt(i, 8) {
      GicPages(i);
      PageRoundTrip(GicPage(i), Device);
    }
    UartPage();
    PageRoundTrip(UART0_BASE, Device);
    ZeroIsHole(3);
  }

  lemma GicPages(i: bv64)
    requires Lt(i, 8)
    ensures PageAligned(GicPage(i))
  {
  }

  lemma UartPage()
    ensures PageAligned(UART0_BASE)
  {
  }

  // ---- The walk of the built tree ---------------------------------------------------------------

  /** The trunk: addresses beyond the first 64 GiB fault, all others reach the level 2 table. */
  lemma {:induction false} TrunkWalk(t: Tables, l: Layout, delta: bv64, va: bv64)
    requires Placed(t)
    ensures Translate(Built(t, l, delta), t.l0, va) ==
      if Index(0, va) == 0 && Index(1, va) == 0 then TargetOf(Walk(Built(t, l, delta), t.l2, 2, va)) else Unmapped
  {
    hide Index, Built, Walk, Output, EntryAt, Placed;
    var m := Built(t, l, delta);
    RootEntry(t, l, delta, Index(0, va));
    L1Entry(t, l, delta, Index(1, va));
    WalkStep(m, t.l0, 0, va);
    WalkStep(m, t.l1, 1, va);
  }

  // The memory map, at the addresses of each slot.

  lemma ImageSlot(l: Layout, delta: bv64, va: bv64)
    requires Index(0, va) == 0 && Index(1, va) == 0 && Index(2, va) == 32
    ensures Region(l, delta, Offset(va)) == ImageRegion(l, delta, Output(3, ImagePage(Index(3, va)), va))
    ensures Lt(Index(3, va), 2048)
  {
    hide Region, Output, ImageRegion, ImagePage, Offset, Index, Lt;
    IndexFits(va);
    FitsTable(Index(3, va));
    InImage(va);
    RegionImage(l, delta, Offset(va));
  }

  lemma MmioSlot(l: Layout, delta: bv64, va: bv64)
    requires Index(0, va) == 0 && Index(1, va) == 0 && Index(2, va) == 4
    ensures var j := Index(3, va);
      && (j == 1024 ==> GicPage(j) == UART0_BASE)
      && Region(l, delta, Offset(va)) ==
        if Lt(j, 8) || j == 1024 then To(Output(3, GicPage(j), va), LeafBits(Device)) else Unmapped
  {
    hide Region, Output, Offset, Index, Lt, LeafBits, GicPage;
    InMmio(va);
    MmioPages(va);
    RegionMmio(l, delta, Offset(va));
  }

  lemma RamSlots(l: Layout, delta: bv64, va: bv64)
    requires Index(0, va) == 0 && Index(1, va) == 0 && RamSlot(Index(2, va))
    ensures Region(l, delta, Offset(va)) == To(Output(2, SlotBase(Index(2, va)), va), LeafBits(Rw))
  {
    hide Region, Output, Offset, Index, LeafBits, RamSlot, SlotBase;
    InSlot(va);
    RamBounds(Index(2, va), va);
    RegionRam(l, delta, Offset(va));
  }

  lemma WindowSlot(l: Layout, delta: bv64, va: bv64)
    requires Index(0, va) == 0 && Index(1, va) == 0 && Index(2, va) == 48
    ensures Region(l, delta, Offset(va)) == To(Output(2, RAM_END, va), LeafBits(Device))
  {
    hide Region, Output, Offset, Index, LeafBits, SlotBase;
    InSlot(va);
    WindowBounds(va);
    RegionWindow(l, delta, Offset(va));
  }

  lemma OtherSlots(l: Layout, delta: bv64, va: bv64)
    requires Index(0, va) == 0 && Index(1, va) == 0
    requires Index(2, va) != 4 && Index(2, va) != 32 && !RamSlot(Index(2, va)) && Index(2, va) != 48
    ensures Region(l, delta, Offset(va)) == Unmapped
  {
    hide Region, Output, Offset, Index, RamSlot, SlotBase;
    IndexFits(va);
    InSlot(va);
    OtherSlot(Index(2, va), va);
    RegionElsewhere(l, delta, Offset(va));
  }

  lemma {:induction false} KernelWalk(t: Tables, l: Layout, delta: bv64, va: bv64)
    requires Placed(t) && Linked16K(l) && Displacement(delta)
    requires Index(0, va) == 0 && Index(1, va) == 0 && Index(2, va) == 32
    ensures TargetOf(Walk(Built(t, l, delta), t.l3Kernel, 3, va)) == Region(l, delta, Offset(va))
  {
    hide Index, Built, Walk, Output, EntryAt, Placed, Linked16K, Displacement, Region, ImageRegion, KernelAttr, KernelOut,
      LeafBits, ImagePage, Offset, Lt, Aligned, ImageGranule;
    var j := Index(3, va);
    ImageSlot(l, delta, va);
    KernelEntry(t, l, delta, j);
    WalkStep(Built(t, l, delta), t.l3Kernel, 3, va);
    PagesOfImage(j);
    AlignedDisplacement(delta);
    ImagePageRegion(l, delta, ImagePage(j), va);
  }

  lemma PagesOfImage(j: bv64)
    requires Lt(j, 2048)
    ensures Aligned(ImagePage(j)) && ImageGranule(ImagePage(j))
  {
    hide Aligned, ImageGranule, ImagePage, Lt;
    ImagePages(j);
  }

  lemma AlignedDisplacement(delta: bv64)
    requires Displacement(delta)
    ensures Aligned(delta)
  {
  }

  lemma {:induction false} MmioWalk(t: Tables, l: Layout, delta: bv64, va: bv64)
    requires Placed(t) && Index(0, va) == 0 && Index(1, va) == 0 && Index(2, va) == 4
    ensures TargetOf(Walk(Built(t, l, delta), t.l3Mmio, 3, va)) == Region(l, delta, Offset(va))
  {
    hide Index, Built, Walk, Output, EntryAt, Placed, Region, LeafBits, Offset, Lt, GicPage;
    MmioSlot(l, delta, va);
    MmioEntry(t, l, delta, Index(3, va));
    WalkStep(Built(t, l, delta), t.l3Mmio, 3, va);
  }

  lemma {:induction false} BackboneWalk(t: Tables, l: Layout, delta: bv64, va: bv64)
    requires Placed(t) && Linked16K(l) && Displacement(delta) && Index(0, va) == 0 && Index(1, va) == 0
    ensures TargetOf(Walk(Built(t, l, delta), t.l2, 2, va)) == Region(l, delta, Offset(va))
  {
    hide Index, Built, Walk, Output, EntryAt, Placed, Linked16K, Displacement, Region, LeafBits, Offset, RamSlot, SlotBase;
    var i := Index(2, va);
    L2Entry(t, l, delta, i);
    WalkStep(Built(t, l, delta), t.l2, 2, va);
    if i == 4 {
      MmioWalk(t, l, delta, va);
    } else if i == 32 {
      KernelWalk(t, l, delta, va);
    } else if RamSlot(i) {
      RamSlots(l, delta, va);
    } else if i == 48 {
      WindowSlot(l, delta, va);
    } else {
      OtherSlots(l, delta, va);
    }
  }

  /** The finished tree translates every address to what the memory map asks for. */
  lemma BuiltTranslates(t: Tables, l: Layout, delta: bv64, va: bv64)
    requires Placed(t) && Linked16K(l) && Displacement(delta)
    ensures Translate(Built(t, l, delta), t.l0, va) == Region(l, delta, Offset(va))
  {
    hide Index, Built, Walk, Translate, Placed, Linked16K, Displacement, Region, Offset;
    TrunkWalk(t, l, delta, va);
    if Index(0, va) == 0 && Index(1, va) == 0 {
      BackboneWalk(t, l, delta, va);
    } else {
      BeyondTrunk(va);
      RegionElsewhere(l, delta, Offset(va));
    }
  }

  // ---- The built tree is a tree, and safe ---------------------------------------------------------

  function BuiltShape(t: Tables): Shape {
    map[Table(t.l0) := Place(0, 0, 0), Table(t.l1) := Place(1, t.l0, 0), Table(t.l2) := Place(2, t.l1, 0),
        Table(t.l3Mmio) := Place(3, t.l2, 4), Table(t.l3Kernel) := Place(3, t.l2, 32)]
  }

  lemma ShapeOf(t: Tables)
    requires Placed(t)
    ensures var s := BuiltShape(t);
      && s.Keys == {Table(t.l0), Table(t.l1), Table(t.l2), Table(t.l3Mmio), Table(t.l3Kernel)}
      && s[Table(t.l0)] == Place(0, 0, 0) && s[Table(t.l1)] == Place(1, t.l0, 0)
      && s[Table(t.l2)] == Place(2, t.l1, 0)
      && s[Table(t.l3Mmio)] == Place(3, t.l2, 4) && s[Table(t.l3Kernel)] == Place(3, t.l2, 32)
  {
    hide Placed, PageAligned;
    TablesApart(t);
  }

  lemma BuiltIsTree(t: Tables, l: Layout, delta: bv64)
    requires Placed(t) && Displacement(delta)
    ensures Tree(Built(t, l, delta), t.l0, BuiltShape(t))
  {
    hide Built, EntryAt, Placed, LeafBits, RamSlot, SlotBase, BuiltShape, Displacement;
    ShapeOf(t);
    var m, s := Built(t, l, delta), BuiltShape(t);
    forall u: bv64, i: bv64 | Table(u) in s && s[Table(u)].level < 3 && EntryAt(m, s[Table(u)].level, u, i).Next?
      ensures
        var c := EntryAt(m, s[Table(u)].level, u, i).pa;
        Table(c) in s && s[Table(c)] == Place(s[Table(u)].level + 1, u, i)
    {
      if u == t.l0 {
        RootEntry(t, l, delta, i);
      } else if u == t.l1 {
        L1Entry(t, l, delta, i);
      } else {
        L2Entry(t, l, delta, i);
      }
    }
  }

  predicate SafeEntry(e: Entry) { e.Leaf? ==> SafeLeaf(e.attrs, true) }

  lemma KernelBundleSafe(a: Attr)
    requires !a.UserRw? && !a.UserRx?
    ensures SafeLeaf(LeafBits(a), true)
  {
    hide LeafBits, Writable, Executable, Accessed, El0Access;
    BundlesAreSafe(a);
  }

  lemma KernelEntrySafe(t: Tables, l: Layout, delta: bv64, i: bv64)
    requires Placed(t) && Displacement(delta)
    ensures SafeEntry(EntryAt(Built(t, l, delta), 3, t.l3Kernel, i))
  {
    hide Built, EntryAt, Placed, LeafBits, Displacement, SafeLeaf, Lt, ImagePage, KernelOut;
    KernelEntry(t, l, delta, i);
    KernelBundleSafe(Ro);
    KernelBundleSafe(Rw);
    KernelBundleSafe(TextRx);
  }

  lemma LeafEntrySafe(t: Tables, l: Layout, delta: bv64, i: bv64)
    requires Placed(t)
    ensures SafeEntry(EntryAt(Built(t, l, delta), 3, t.l3Mmio, i))
    ensures SafeEntry(EntryAt(Built(t, l, delta), 2, t.l2, i))
  {
    hide Built, EntryAt, Placed, LeafBits, SafeLeaf, Lt, RamSlot, SlotBase, GicPage;
    MmioEntry(t, l, delta, i);
    L2Entry(t, l, delta, i);
    KernelBundleSafe(Device);
    KernelBundleSafe(Rw);
  }

  lemma BuiltIsSafe(t: Tables, l: Layout, delta: bv64)
    requires Placed(t) && Displacement(delta)
    ensures SafeTree(Built(t, l, delta), BuiltShape(t), true)
  {
    hide Built, EntryAt, Placed, BuiltShape, Displacement, SafeLeaf;
    ShapeOf(t);
    var m, s := Built(t, l, delta), BuiltShape(t);
    forall u: bv64, i: bv64 | Table(u) in s && EntryAt(m, s[Table(u)].level, u, i).Leaf?
      ensures SafeLeaf(EntryAt(m, s[Table(u)].level, u, i).attrs, true)
    {
      RootEntry(t, l, delta, i);
      L1Entry(t, l, delta, i);
      LeafEntrySafe(t, l, delta, i);
      KernelEntrySafe(t, l, delta, i);
    }
  }

  /** The builder writes to the five tables of the tree only. */
  lemma NothingElseBuilt(t: Tables, l: Layout, delta: bv64, n: bv64)
    requires Placed(t) && Table(n) !in BuiltShape(t)
    ensures forall i: bv64 :: Read(Built(t, l, delta), n, i) == 0
  {
    hide Built, Placed, Read;
    forall i: bv64 ensures Read(Built(t, l, delta), n, i) == 0 {
      BuiltRead(t, l, delta, n, i);
    }
  }

  /** Its tables lie in the static, and it leaves the pool and the condemned root alone. */
  lemma BuiltLeavesPool(t: Tables, l: Layout, delta: bv64)
    requires Placed(t)
    ensures forall u :: u in BuiltShape(t) ==> Inside(t, u.pa)
    ensures forall k :: 0 <= k < 8 ==> Blank(Built(t, l, delta), BuiltShape(t), t.runtime[k])
    ensures Blank(Built(t, l, delta), BuiltShape(t), t.emptyRoot)
  {
    hide PageAligned, Built, Read;
    var all := Fixed(t) + t.runtime;
    assert all[0] == t.l0 && all[1] == t.l1 && all[2] == t.l2 && all[3] == t.l3Kernel && all[4] == t.l3Mmio;
    assert all[5] == t.emptyRoot;
    NothingElseBuilt(t, l, delta, t.emptyRoot);
    forall k | 0 <= k < 8 ensures Blank(Built(t, l, delta), BuiltShape(t), t.runtime[k]) {
      assert all[6 + k] == t.runtime[k];
      NothingElseBuilt(t, l, delta, t.runtime[k]);
    }
  }
}
