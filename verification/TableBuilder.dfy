/** The boot-time builder: which tables it fills with what, and the finished tables read back entry
    by entry. */
module TableBuilder {
  import opened Descriptors
  import opened TableTree

  const IMAGE_BASE: bv64 := 0x4000_0000     // RAM_BASE
  const TEXT_START: bv64 := 0x4020_0000
  const RAM_END: bv64 := 0x6000_0000
  const UART0_BASE: bv64 := 0x0900_0000
  const GICD_BASE: bv64 := 0x0800_0000
  const GICC_BASE: bv64 := 0x0801_0000

  /** Where the static `TABLES` lies: its tables one by one, and the range they fill. */
  datatype Tables = Tables(l0: bv64, l1: bv64, l2: bv64, l3Kernel: bv64, l3Mmio: bv64, emptyRoot: bv64,
                           runtime: seq<bv64>, start: bv64, end: bv64)

  function Fixed(t: Tables): seq<bv64> { [t.l0, t.l1, t.l2, t.l3Kernel, t.l3Mmio, t.emptyRoot] }

  predicate Inside(t: Tables, pa: bv64) { Le(t.start, pa) && Lt(pa, t.end) && PageAligned(pa) }

  /** Distinct granules, all of them inside the static. */
  predicate Placed(t: Tables) {
    && |t.runtime| == 8
    && var all := Fixed(t) + t.runtime;
      && (forall j :: 0 <= j < |all| ==> Inside(t, all[j]))
      && (forall j, k :: 0 <= j < k < |all| ==> all[j] != all[k])
  }

  /** The boundaries of the image, in link-time physical addresses. */
  datatype Layout = Layout(textEnd: bv64, rodataEnd: bv64, guardBottom: bv64, stackBottom: bv64, stackTop: bv64)

  predicate Aligned(pa: bv64) { pa & 0x3FFF == 0 }

  /** Comparisons by names that proofs can leave unexpanded. */
  predicate Lt(a: bv64, b: bv64) { a < b }
  predicate Le(a: bv64, b: bv64) { a <= b }

  /** A section boundary: between two pages of the 32 MiB that are mapped page by page. */
  predicate OnGranule(a: bv64) { Aligned(a) && TEXT_START <= a <= 0x4200_0000 }

  /** What the linker script asserts, and that its sections are in order. */
  predicate Linked16K(l: Layout) {
    && OnGranule(l.textEnd) && OnGranule(l.rodataEnd) && OnGranule(l.guardBottom) && OnGranule(l.stackBottom)
    && OnGranule(l.stackTop)
    && Le(l.textEnd, l.rodataEnd) && Le(l.rodataEnd, l.guardBottom) && Le(l.guardBottom, l.stackBottom)
    && Le(l.stackBottom, l.stackTop)
  }

  /** A relocation the image can be found at: aligned, and nothing leaves the 48-bit space. */
  predicate Displacement(delta: bv64) { Aligned(delta) && delta <= 0x0000_FFFF_BE00_0000 }

  // ---- What the tables hold ----------------------------------------------------------------

  /** What page `pa` of the kernel's 32 MiB holds, if it is not the guard. */
  function KernelAttr(l: Layout, pa: bv64): Option<Attr> {
    if Lt(pa, TEXT_START) then Some(Ro)
    else if Lt(pa, l.textEnd) then Some(TextRx)
    else if Lt(pa, l.rodataEnd) then Some(Ro)
    else if Lt(pa, l.guardBottom) then Some(Rw)
    else if Lt(pa, l.stackBottom) then None
    else Some(Rw)
  }

  function Moved(pa: bv64, delta: bv64): bv64 { pa + delta }

  /** Image pages lie where the loader put them, all others where their address says. */
  function KernelOut(l: Layout, delta: bv64, pa: bv64): bv64 {
    if !Lt(pa, TEXT_START) && Lt(pa, l.stackTop) then Moved(pa, delta) else pa
  }

  function ImagePage(i: bv64): bv64 { IMAGE_BASE + (i << 14) }

  /** The descriptor of page i of the kernel's 32 MiB; zero is the guard's, never written. */
  function KernelDesc(l: Layout, delta: bv64, i: bv64): bv64 {
    var pa := ImagePage(i);
    match KernelAttr(l, pa)
    case None => 0
    case Some(a) => PageDesc(KernelOut(l, delta, pa), a)
  }

  function WithKernelLeaf(m: Mem, t: bv64, l: Layout, delta: bv64, i: bv64): Mem {
    match KernelAttr(l, ImagePage(i))
    case None => m
    case Some(a) => Put(m, t, i, PageDesc(KernelOut(l, delta, ImagePage(i)), a))
  }

  function KernelPages(m: Mem, t: bv64, l: Layout, delta: bv64, n: bv64): Mem
    decreases n
  {
    if n == 0 then m else WithKernelLeaf(KernelPages(m, t, l, delta, n - 1), t, l, delta, n - 1)
  }

  function DevicePages(m: Mem, t: bv64, pa: bv64, n: bv64): Mem
    decreases n
  {
    if n == 0 then m
    else
      var page := pa + ((n - 1) << 14);
      Put(DevicePages(m, t, pa, n - 1), t, Index(3, page), PageDesc(page, Device))
  }

  function RamBlocks(m: Mem, t: bv64, first: bv64, end: bv64): Mem
    decreases end
  {
    if end <= first then m
    else Put(RamBlocks(m, t, first, end - 1), t, end - 1, BlockDesc((end - 1) << 25, Rw))
  }

  function Mmio(m: Mem, t: bv64): Mem {
    var uart := Put(m, t, Index(3, UART0_BASE), PageDesc(UART0_BASE, Device));
    DevicePages(DevicePages(uart, t, GICD_BASE, 4), t, GICC_BASE, 4)
  }

  function Backbone(m: Mem, t: Tables): Mem {
    var m1 := Put(m, t.l2, Index(2, UART0_BASE), TableDesc(t.l3Mmio));
    var m2 := Put(m1, t.l2, Index(2, IMAGE_BASE), TableDesc(t.l3Kernel));
    var m3 := RamBlocks(m2, t.l2, Index(2, IMAGE_BASE) + 1, Index(2, RAM_END));
    Put(m3, t.l2, Index(2, RAM_END), BlockDesc(RAM_END, Device))
  }

  function Trunk(m: Mem, t: Tables): Mem {
    var m1 := Put(m, t.l1, Index(1, IMAGE_BASE), TableDesc(t.l2));
    Put(m1, t.l0, Index(0, IMAGE_BASE), TableDesc(t.l1))
  }

  /** The tables `opal_build_tables` leaves behind, starting from zeroed memory. */
  function Built(t: Tables, l: Layout, delta: bv64): Mem {
    Trunk(Backbone(Mmio(KernelPages(map[], t.l3Kernel, l, delta, 2048), t.l3Mmio), t), t)
  }

  // ---- Reading them back ----------------------------------------------------------------------

  lemma LtPredecessor(j: bv64, n: bv64)
    requires 0 < n <= 0x800 && j < n && j != n - 1
    ensures j < n - 1
  {
  }

  lemma PredecessorLt(j: bv64, n: bv64)
    requires 0 < n <= 0x800 && j < n - 1
    ensures j < n
  {
  }

  lemma NothingLtZero(j: bv64)
    ensures !Lt(j, 0)
  {
  }

  lemma Below(j: bv64, n: bv64)
    requires 0 < n <= 0x800
    ensures Lt(j, n) <==> Lt(j, n - 1) || j == n - 1
    ensures n - 1 <= 0x800
  {
    if j == n - 1 {
    } else if j < n {
      LtPredecessor(j, n);
    } else if j < n - 1 {
      PredecessorLt(j, n);
    }
  }

  lemma OneBefore(i: bv64)
    requires i < 0x800
    ensures i + 1 != 0 && i + 1 - 1 == i && i + 1 <= 0x800
  {
  }

  lemma {:induction false} NothingFilled(m: Mem, t: bv64, l: Layout, delta: bv64, pa: bv64)
    ensures KernelPages(m, t, l, delta, 0) == m && DevicePages(m, t, pa, 0) == m && RamBlocks(m, t, 33, 33) == m
  {
  }

  lemma KernelPagesStep(m: Mem, t: bv64, l: Layout, delta: bv64, i: bv64)
    requires i < 0x800
    ensures KernelPages(m, t, l, delta, i + 1) == WithKernelLeaf(KernelPages(m, t, l, delta, i), t, l, delta, i)
  {
    hide WithKernelLeaf;
    OneBefore(i);
  }

  lemma DevicePagesStep(m: Mem, t: bv64, pa: bv64, i: bv64)
    requires i < 0x800
    ensures DevicePages(m, t, pa, i + 1) ==
      Put(DevicePages(m, t, pa, i), t, Index(3, pa + (i << 14)), PageDesc(pa + (i << 14), Device))
  {
    hide PageDesc, Put, Index;
    OneBefore(i);
  }

  lemma RamBlocksStep(m: Mem, t: bv64, i: bv64)
    requires 33 <= i < 48
    ensures RamBlocks(m, t, 33, i + 1) == Put(RamBlocks(m, t, 33, i), t, i, BlockDesc(i << 25, Rw))
  {
    hide BlockDesc, Put;
    OneBefore(i);
  }

  lemma {:induction false} KernelPagesRead(m: Mem, t: bv64, l: Layout, delta: bv64, n: bv64, u: bv64, j: bv64)
    requires Read(m, t, j) == 0 && n <= 0x800
    ensures Read(KernelPages(m, t, l, delta, n), u, j) ==
      if u == t && Lt(j, n) then KernelDesc(l, delta, j) else Read(m, u, j)
    decreases n
  {
    hide PageDesc, KernelOut, KernelAttr, ImagePage, Read, Put, Lt;
    if n == 0 {
      NothingLtZero(j);
    } else {
      Below(j, n);
      PutRead(KernelPages(m, t, l, delta, n - 1), t, n - 1, KernelDesc(l, delta, n - 1), u, j);
      KernelPagesRead(m, t, l, delta, n - 1, u, j);
    }
  }

  lemma NothingBetween33And33(j: bv64)
    ensures !(33 <= j && Lt(j, 33))
  {
  }

  lemma {:induction false} RamBlocksRead(m: Mem, t: bv64, end: bv64, u: bv64, j: bv64)
    requires 33 <= end <= 48
    ensures Read(RamBlocks(m, t, 33, end), u, j) ==
      if u == t && 33 <= j && Lt(j, end) then BlockDesc(j << 25, Rw) else Read(m, u, j)
    decreases end
  {
    hide BlockDesc, Read, Put, Lt;
    if end == 33 {
      NothingBetween33And33(j);
    } else {
      Below(j, end);
      PutRead(RamBlocks(m, t, 33, end - 1), t, end - 1, BlockDesc((end - 1) << 25, Rw), u, j);
      RamBlocksRead(m, t, end - 1, u, j);
    }
  }

  function GicPage(i: bv64): bv64 { GICD_BASE + (i << 14) }

  function MmioDesc(j: bv64): bv64 {
    if Lt(j, 8) then PageDesc(GicPage(j), Device)
    else if j == 1024 then PageDesc(UART0_BASE, Device)
    else 0
  }

  lemma {:induction false} FourPagesRead(m: Mem, t: bv64, pa: bv64, first: bv64, u: bv64, j: bv64)
    requires (pa == GICD_BASE && first == 0) || (pa == GICC_BASE && first == 4)
    ensures Read(DevicePages(m, t, pa, 4), u, j) ==
      if u == t && first <= j < first + 4 then PageDesc(GICD_BASE + (j << 14), Device) else Read(m, u, j)
  {
    hide PageDesc, Put, Read, Index;
    FourIndices(pa, first, j);
    assert DevicePages(m, t, pa, 1) == Put(m, t, Index(3, pa), PageDesc(pa, Device)) by {
      assert DevicePages(m, t, pa, 0) == m;
    }
    PutRead(m, t, first, PageDesc(pa, Device), u, j);
    PutRead(DevicePages(m, t, pa, 1), t, first + 1, PageDesc(pa + 0x4000, Device), u, j);
    PutRead(DevicePages(m, t, pa, 2), t, first + 2, PageDesc(pa + 0x8000, Device), u, j);
    PutRead(DevicePages(m, t, pa, 3), t, first + 3, PageDesc(pa + 0xC000, Device), u, j);
  }

  lemma FourIndices(pa: bv64, first: bv64, j: bv64)
    requires (pa == GICD_BASE && first == 0) || (pa == GICC_BASE && first == 4)
    ensures Index(3, pa) == first && Index(3, pa + 0x4000) == first + 1
    ensures Index(3, pa + 0x8000) == first + 2 && Index(3, pa + 0xC000) == first + 3
    ensures first <= j < first + 4 <==> j == first || j == first + 1 || j == first + 2 || j == first + 3
    ensures pa == GICD_BASE + (first << 14) && pa + 0x4000 == GICD_BASE + ((first + 1) << 14)
    ensures pa + 0x8000 == GICD_BASE + ((first + 2) << 14) && pa + 0xC000 == GICD_BASE + ((first + 3) << 14)
  {
  }

  lemma MmioRead(m: Mem, t: bv64, u: bv64, j: bv64)
    requires Read(m, t, j) == 0
    ensures Read(Mmio(m, t), u, j) == if u == t then MmioDesc(j) else Read(m, u, j)
  {
    hide PageDesc, DevicePages, Put, Read;
    PutRead(m, t, 1024, PageDesc(UART0_BASE, Device), u, j);
    var m1 := Put(m, t, Index(3, UART0_BASE), PageDesc(UART0_BASE, Device));
    FourPagesRead(m1, t, GICD_BASE, 0, u, j);
    FourPagesRead(DevicePages(m1, t, GICD_BASE, 4), t, GICC_BASE, 4, u, j);
  }

  lemma TablesApart(t: Tables)
    requires Placed(t)
    ensures t.l0 != t.l1 && t.l0 != t.l2 && t.l0 != t.l3Kernel && t.l0 != t.l3Mmio
    ensures t.l1 != t.l2 && t.l1 != t.l3Kernel && t.l1 != t.l3Mmio && t.l2 != t.l3Kernel && t.l2 != t.l3Mmio
    ensures t.l3Kernel != t.l3Mmio
    ensures PageAligned(t.l0) && PageAligned(t.l1) && PageAligned(t.l2) && PageAligned(t.l3Kernel) && PageAligned(t.l3Mmio)
  {
    hide PageAligned;
    var all := Fixed(t) + t.runtime;
    assert all[0] == t.l0 && all[1] == t.l1 && all[2] == t.l2 && all[3] == t.l3Kernel && all[4] == t.l3Mmio;
  }

  /** The slots of the level 2 table that hold RAM, other than the first. */
  predicate RamSlot(i: bv64) { 33 <= i && Lt(i, 48) }
  function SlotBase(i: bv64): bv64 { i << 25 }

  function L2Desc(t: Tables, j: bv64): bv64 {
    if j == 4 then TableDesc(t.l3Mmio)
    else if j == 32 then TableDesc(t.l3Kernel)
    else if RamSlot(j) then BlockDesc(SlotBase(j), Rw)
    else if j == 48 then BlockDesc(RAM_END, Device)
    else 0
  }

  /** The finished tables, entry by entry. */
  function Contents(t: Tables, l: Layout, delta: bv64, u: bv64, j: bv64): bv64 {
    if u == t.l1 then (if j == 0 then TableDesc(t.l2) else 0)
    else if u == t.l0 then (if j == 0 then TableDesc(t.l1) else 0)
    else LeafContents(t, l, delta, u, j)
  }

  function LeafContents(t: Tables, l: Layout, delta: bv64, u: bv64, j: bv64): bv64 {
    if u == t.l3Kernel then (if Lt(j, 2048) then KernelDesc(l, delta, j) else 0)
    else if u == t.l3Mmio then MmioDesc(j)
    else if u == t.l2 then L2Desc(t, j)
    else 0
  }

  lemma BackboneRead(m: Mem, t: Tables, u: bv64, j: bv64)
    requires Read(m, t.l2, j) == 0
    ensures Read(Backbone(m, t), u, j) == if u == t.l2 then L2Desc(t, j) else Read(m, u, j)
  {
    hide BlockDesc, TableDesc, RamBlocks, Lt, Put, Read, Index;
    FixedIndices();
    RangesApart(j);
    var m1 := Put(m, t.l2, 4, TableDesc(t.l3Mmio));
    var m2 := Put(m1, t.l2, 32, TableDesc(t.l3Kernel));
    PutRead(m, t.l2, 4, TableDesc(t.l3Mmio), u, j);
    PutRead(m1, t.l2, 32, TableDesc(t.l3Kernel), u, j);
    RamBlocksRead(m2, t.l2, 48, u, j);
    PutRead(RamBlocks(m2, t.l2, 33, 48), t.l2, 48, BlockDesc(RAM_END, Device), u, j);
  }

  lemma FixedIndices()
    ensures Index(2, UART0_BASE) == 4 && Index(2, IMAGE_BASE) == 32 && Index(2, IMAGE_BASE) + 1 == 33
    ensures Index(2, RAM_END) == 48 && Index(1, IMAGE_BASE) == 0 && Index(0, IMAGE_BASE) == 0
  {
  }

  lemma RangesApart(j: bv64)
    ensures 33 <= j && Lt(j, 48) ==> j != 4 && j != 32 && j != 48
  {
  }

  lemma TrunkRead(m: Mem, t: Tables, u: bv64, j: bv64)
    requires t.l0 != t.l1 && Read(m, t.l0, j) == 0 && Read(m, t.l1, j) == 0
    ensures Read(Trunk(m, t), u, j) ==
      if u == t.l1 then (if j == 0 then TableDesc(t.l2) else 0)
      else if u == t.l0 then (if j == 0 then TableDesc(t.l1) else 0)
      else Read(m, u, j)
  {
    hide TableDesc, Put, Read, Index;
    FixedIndices();
    PutRead(m, t.l1, 0, TableDesc(t.l2), u, j);
    PutRead(Put(m, t.l1, 0, TableDesc(t.l2)), t.l0, 0, TableDesc(t.l1), u, j);
  }

  /** What the stages before the trunk leave in any table. */
  lemma {:induction false} LeavesRead(t: Tables, l: Layout, delta: bv64, u: bv64, j: bv64)
    requires Placed(t)
    ensures Read(Backbone(Mmio(KernelPages(map[], t.l3Kernel, l, delta, 2048), t.l3Mmio), t), u, j) ==
      LeafContents(t, l, delta, u, j)
  {
    hide KernelDesc, MmioDesc, L2Desc, Lt, Read, KernelPages, Mmio, Backbone, Placed;
    LeavesApart(t);
    var m1 := KernelPages(map[], t.l3Kernel, l, delta, 2048);
    KernelPagesFromZero(t.l3Kernel, l, delta, u, j);
    KernelPagesFromZero(t.l3Kernel, l, delta, t.l3Mmio, j);
    KernelPagesFromZero(t.l3Kernel, l, delta, t.l2, j);
    MmioRead(m1, t.l3Mmio, u, j);
    MmioRead(m1, t.l3Mmio, t.l2, j);
    BackboneRead(Mmio(m1, t.l3Mmio), t, u, j);
  }

  lemma LeavesApart(t: Tables)
    requires Placed(t)
    ensures t.l2 != t.l3Kernel && t.l2 != t.l3Mmio && t.l3Kernel != t.l3Mmio
  {
    hide PageAligned;
    TablesApart(t);
  }

  lemma {:induction false} KernelPagesFromZero(t: bv64, l: Layout, delta: bv64, u: bv64, j: bv64)
    ensures Read(KernelPages(map[], t, l, delta, 2048), u, j) ==
      if u == t && Lt(j, 2048) then KernelDesc(l, delta, j) else 0
  {
    hide KernelDesc, KernelPages;
    KernelPagesRead(map[], t, l, delta, 2048, u, j);
  }

  lemma BuiltRead(t: Tables, l: Layout, delta: bv64, u: bv64, j: bv64)
    requires Placed(t)
    ensures Read(Built(t, l, delta), u, j) == Contents(t, l, delta, u, j)
  {
    hide TableDesc, LeafContents, Read, KernelPages, Mmio, Backbone, Trunk, Placed;
    RootsHoldNoLeaves(t, l, delta, j);
    LeavesRead(t, l, delta, u, j);
    LeavesRead(t, l, delta, t.l0, j);
    LeavesRead(t, l, delta, t.l1, j);
    TrunkRead(Backbone(Mmio(KernelPages(map[], t.l3Kernel, l, delta, 2048), t.l3Mmio), t), t, u, j);
  }

  lemma RootsHoldNoLeaves(t: Tables, l: Layout, delta: bv64, j: bv64)
    requires Placed(t)
    ensures t.l0 != t.l1 && LeafContents(t, l, delta, t.l0, j) == 0 && LeafContents(t, l, delta, t.l1, j) == 0
  {
    hide Placed, PageAligned, KernelDesc, MmioDesc, L2Desc, Lt;
    TablesApart(t);
  }
}
