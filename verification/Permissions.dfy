/** What the translation tables permit and which memory they select, address by address: the attribute
    bits as the machine reads them, over the built map, the tasks' pages and the pages mapped at run
    time. Nothing here refers to the bundles the builder writes. */
module Permissions {
  import opened Descriptors
  import opened TableTree
  import opened TableBuilder
  import opened MemoryMap
  import opened TableState
  import UserTables

  /** The memory attributes by slot, a byte each. */
  const MAIR_EL1_VALUE: bv64 := 0x0000_0000_0044_00FF

  datatype Kind = WriteBack | DeviceOrdered | NonCacheable | Reserved

  /** What a leaf lets the two exception levels do, and with what kind of memory. */
  datatype Rights = Rights(writes: bool, kernelFetches: bool, user: bool, userFetches: bool, kind: Kind)

  const KERNEL_CODE := Rights(false, true, false, false, WriteBack)
  const KERNEL_CONST := Rights(false, false, false, false, WriteBack)
  const KERNEL_DATA := Rights(true, false, false, false, WriteBack)
  const REGISTERS := Rights(true, false, false, false, DeviceOrdered)
  const PIXELS := Rights(true, false, false, false, NonCacheable)
  const USER_CODE := Rights(false, false, true, true, WriteBack)
  const USER_STACK := Rights(true, false, true, false, WriteBack)

  /** The slot the attribute index in bits 4 to 2 selects. */
  function Slot(attrs: bv64): bv64 { (MAIR_EL1_VALUE >> ((attrs & 0x1C) << 1)) & 0xFF }

  function KindOf(attrs: bv64): Kind {
    if Slot(attrs) == 0xFF then WriteBack
    else if Slot(attrs) == 0x00 then DeviceOrdered
    else if Slot(attrs) == 0x44 then NonCacheable
    else Reserved
  }

  function RightsOf(attrs: bv64): Rights {
    Rights(attrs & 0x80 == 0, attrs & 0x0020_0000_0000_0000 == 0, attrs & 0x40 != 0,
           attrs & 0x40 != 0 && attrs & 0x0040_0000_0000_0000 == 0, KindOf(attrs))
  }

  /** The address is mapped to pa with these rights, and the first access does not fault. */
  predicate Sees(r: Target, pa: bv64, rights: Rights) {
    r.To? && r.pa == pa && RightsOf(r.attrs) == rights && r.attrs & 0x400 != 0
  }

  lemma SlotKinds(attrs: bv64)
    ensures attrs & 0x1C == 0x0 ==> KindOf(attrs) == WriteBack
    ensures attrs & 0x1C == 0x4 ==> KindOf(attrs) == DeviceOrdered
    ensures attrs & 0x1C == 0x8 ==> KindOf(attrs) == NonCacheable
  {
  }

  lemma BundleKind(a: Attr)
    ensures KindOf(LeafBits(a)) == if a.Device? then DeviceOrdered else if a.Framebuffer? then NonCacheable else WriteBack
  {
    hide LeafBits, KindOf;
    BundleBits(a);
    SlotKinds(LeafBits(a));
  }

  /** What each bundle means to the machine. */
  lemma BundleRights(a: Attr)
    ensures RightsOf(LeafBits(a)) == match a
      case TextRx => KERNEL_CODE
      case Ro => KERNEL_CONST
      case Rw => KERNEL_DATA
      case Device => REGISTERS
      case Framebuffer => PIXELS
      case UserRx => USER_CODE
      case UserRw => USER_STACK
    ensures LeafBits(a) & 0x400 != 0
  {
    hide LeafBits, KindOf;
    BundleBits(a);
    BundleKind(a);
  }

  // ---- The built map ------------------------------------------------------------------------

  predicate In(o: bv64, lo: bv64, hi: bv64) { lo <= o < hi }

  /** The section boundaries are in order for every address, not only for whole pages. */
  lemma SectionChain(l: Layout, o: bv64)
    requires Linked16K(l) && In(o, 0x4000_0000, 0x4200_0000)
    ensures Lt(o, TEXT_START) ==> Lt(o, l.textEnd)
    ensures Lt(o, l.textEnd) ==> Lt(o, l.rodataEnd)
    ensures Lt(o, l.rodataEnd) ==> Lt(o, l.guardBottom)
    ensures Lt(o, l.guardBottom) ==> Lt(o, l.stackBottom)
    ensures Lt(o, l.stackBottom) ==> Lt(o, l.stackTop)
  {
    hide Lt, Linked16K, Aligned, ImageGranule;
    PagePart(o);
    ChainOfPage(l, o & 0x43FF_C000, o);
  }

  lemma ChainOfPage(l: Layout, pa: bv64, o: bv64)
    requires Linked16K(l) && Aligned(pa) && ImageGranule(pa) && pa | (o & 0x3FFF) == o
    ensures Lt(o, TEXT_START) ==> Lt(o, l.textEnd)
    ensures Lt(o, l.textEnd) ==> Lt(o, l.rodataEnd)
    ensures Lt(o, l.rodataEnd) ==> Lt(o, l.guardBottom)
    ensures Lt(o, l.guardBottom) ==> Lt(o, l.stackBottom)
    ensures Lt(o, l.stackBottom) ==> Lt(o, l.stackTop)
  {
    hide Lt, Linked16K, Aligned, ImageGranule;
    SectionsOfPage(l, pa, o);
    SectionsInOrder(l, pa);
  }

  lemma PagePart(o: bv64)
    requires 0x4000_0000 <= o < 0x4200_0000
    ensures (o & 0x43FF_C000) | (o & 0x3FFF) == o
    ensures Aligned(o & 0x43FF_C000) && ImageGranule(o & 0x43FF_C000)
  {
  }

  /** The same for what the loader has moved by delta. */
  predicate SeesMoved(r: Target, o: bv64, delta: bv64, rights: Rights) { Sees(r, o + delta, rights) }

  /** The image, section by section: code is fetched by the kernel and never written, constants and the
      device tree below the code only read, data and stack written and never fetched, and the guard is
      not mapped. What the loader moved lies `delta` away; the rest lies where its address says. */
  ghost predicate ImagePermits(l: Layout, delta: bv64, o: bv64, r: Target) {
    && (In(o, 0x4000_0000, 0x4020_0000) ==> Sees(r, o, KERNEL_CONST))
    && (In(o, 0x4020_0000, l.textEnd) ==> SeesMoved(r, o, delta, KERNEL_CODE))
    && (In(o, l.textEnd, l.rodataEnd) ==> SeesMoved(r, o, delta, KERNEL_CONST))
    && (In(o, l.rodataEnd, l.guardBottom) ==> SeesMoved(r, o, delta, KERNEL_DATA))
    && (In(o, l.guardBottom, l.stackBottom) ==> r == Unmapped)
    && (In(o, l.stackBottom, l.stackTop) ==> SeesMoved(r, o, delta, KERNEL_DATA))
    && (In(o, l.stackTop, 0x4200_0000) ==> Sees(r, o, KERNEL_DATA))
  }

  lemma InMeans(o: bv64, lo: bv64, hi: bv64)
    ensures In(o, lo, hi) ==> !Lt(o, lo) && Lt(o, hi)
  {
  }

  lemma MovedSeen(attrs: bv64, o: bv64, delta: bv64, rights: Rights)
    ensures SeesMoved(To(Moved(o, delta), attrs), o, delta, rights) <==> RightsOf(attrs) == rights && attrs & 0x400 != 0
  {
    hide RightsOf;
  }

  lemma StayedSeen(attrs: bv64, o: bv64, rights: Rights)
    ensures Sees(To(o, attrs), o, rights) <==> RightsOf(attrs) == rights && attrs & 0x400 != 0
  {
    hide RightsOf;
  }

  lemma SectionRights(l: Layout, delta: bv64, o: bv64)
    requires Linked16K(l) && In(o, 0x4000_0000, 0x4200_0000)
    ensures var r := ImageRegion(l, delta, o);
      && (Lt(o, 0x4020_0000) ==> Sees(r, o, KERNEL_CONST))
      && (!Lt(o, 0x4020_0000) && Lt(o, l.textEnd) ==> SeesMoved(r, o, delta, KERNEL_CODE))
      && (!Lt(o, l.textEnd) && Lt(o, l.rodataEnd) ==> SeesMoved(r, o, delta, KERNEL_CONST))
      && (!Lt(o, l.rodataEnd) && Lt(o, l.guardBottom) ==> SeesMoved(r, o, delta, KERNEL_DATA))
      && (!Lt(o, l.guardBottom) && Lt(o, l.stackBottom) ==> r == Unmapped)
      && (!Lt(o, l.stackBottom) && Lt(o, l.stackTop) ==> SeesMoved(r, o, delta, KERNEL_DATA))
      && (!Lt(o, l.stackTop) ==> Sees(r, o, KERNEL_DATA))
  {
    hide LeafBits, RightsOf, Linked16K, Lt, Moved, Sees, SeesMoved;
    SectionChain(l, o);
    BundleRights(Ro);
    BundleRights(TextRx);
    BundleRights(Rw);
    StayedSeen(LeafBits(Ro), o, KERNEL_CONST);
    StayedSeen(LeafBits(Rw), o, KERNEL_DATA);
    MovedSeen(LeafBits(TextRx), o, delta, KERNEL_CODE);
    MovedSeen(LeafBits(Ro), o, delta, KERNEL_CONST);
    MovedSeen(LeafBits(Rw), o, delta, KERNEL_DATA);
  }

  lemma ImageRights(l: Layout, delta: bv64, o: bv64)
    requires Linked16K(l) && In(o, 0x4000_0000, 0x4200_0000)
    ensures ImagePermits(l, delta, o, ImageRegion(l, delta, o))
  {
    hide Linked16K, Lt, Sees, SeesMoved, ImageRegion, In;
    SectionRights(l, delta, o);
    InMeans(o, 0x4000_0000, 0x4020_0000);
    InMeans(o, 0x4020_0000, l.textEnd);
    InMeans(o, l.textEnd, l.rodataEnd);
    InMeans(o, l.rodataEnd, l.guardBottom);
    InMeans(o, l.guardBottom, l.stackBottom);
    InMeans(o, l.stackBottom, l.stackTop);
    InMeans(o, l.stackTop, 0x4200_0000);
  }

  /** What every address of the kernel's half permits. */
  ghost predicate Permits(l: Layout, delta: bv64, o: bv64, r: Target) {
    if In(o, 0x4000_0000, 0x4200_0000) then ImagePermits(l, delta, o, r)
    else if In(o, 0x4200_0000, 0x6000_0000) then Sees(r, o, KERNEL_DATA)
    else if In(o, 0x0800_0000, 0x0802_0000) || In(o, 0x0900_0000, 0x0900_4000) || In(o, 0x6000_0000, 0x6200_0000) then
      Sees(r, o, REGISTERS)
    else r == Unmapped
  }

  lemma OtherRegions(l: Layout, delta: bv64, o: bv64)
    ensures In(o, 0x4200_0000, 0x6000_0000) ==> Region(l, delta, o) == To(o, LeafBits(Rw))
    ensures In(o, 0x0800_0000, 0x0802_0000) || In(o, 0x0900_0000, 0x0900_4000) || In(o, 0x6000_0000, 0x6200_0000) ==>
      Region(l, delta, o) == To(o, LeafBits(Device))
    ensures In(o, 0x4000_0000, 0x4200_0000) ==> Region(l, delta, o) == ImageRegion(l, delta, o)
    ensures
      || In(o, 0x4000_0000, 0x4200_0000) || In(o, 0x4200_0000, 0x6000_0000) || In(o, 0x0800_0000, 0x0802_0000)
      || In(o, 0x0900_0000, 0x0900_4000) || In(o, 0x6000_0000, 0x6200_0000) || Region(l, delta, o) == Unmapped
  {
    hide ImageRegion, LeafBits;
  }

  lemma RegionPermits(l: Layout, delta: bv64, o: bv64)
    requires Linked16K(l)
    ensures Permits(l, delta, o, Region(l, delta, o))
  {
    hide LeafBits, RightsOf, Linked16K, ImageRegion, Region, ImagePermits, In, Sees;
    BundleRights(Rw);
    BundleRights(Device);
    OtherRegions(l, delta, o);
    StayedSeen(LeafBits(Rw), o, KERNEL_DATA);
    StayedSeen(LeafBits(Device), o, REGISTERS);
    if In(o, 0x4000_0000, 0x4200_0000) { ImageRights(l, delta, o); }
  }

  /** The tree the builder leaves, at every address. */
  lemma BuiltPermits(t: Tables, l: Layout, delta: bv64, va: bv64)
    requires Placed(t) && Linked16K(l) && Displacement(delta)
    ensures Permits(l, delta, va & 0x0000_FFFF_FFFF_FFFF, Translate(Built(t, l, delta), t.l0, va))
  {
    hide Built, Translate, Placed, Linked16K, Displacement, Region, Permits;
    BuiltTranslates(t, l, delta, va);
    RegionPermits(l, delta, Offset(va));
  }

  // ---- Pages of tasks and pages mapped at run time -------------------------------------------------

  /** Does the address lie in the 16 KiB page at base, bits 63 to 48 aside? And the byte of the page at pa
      it then is. */
  predicate OnPage(va: bv64, base: bv64) { va & 0x0000_FFFF_FFFF_C000 == base }
  function Byte(pa: bv64, va: bv64): bv64 { pa | (va & 0x3FFF) }

  /** A task fetches from its code page and writes to its stack page; the kernel fetches from neither. */
  ghost predicate TaskSees(k: UserTables.Task, va: bv64, r: Target) {
    if OnPage(va, 0x10_0000) then Sees(r, Byte(k.code, va), USER_CODE)
    else if OnPage(va, 0x20_0000) then Sees(r, Byte(k.stack, va), USER_STACK)
    else r == Unmapped
  }

  lemma UserPages(va: bv64)
    ensures SamePage(va, UserTables.USER_CODE_VA) <==> OnPage(va, 0x10_0000)
    ensures SamePage(va, UserTables.USER_STACK_VA) <==> OnPage(va, 0x20_0000)
  {
  }

  lemma OutputByte(pa: bv64, va: bv64)
    ensures Output(3, pa, va) == Byte(pa, va)
  {
    hide Output;
    OutputIsOr(pa, va);
  }

  lemma MapPermits(k: UserTables.Task, va: bv64)
    ensures TaskSees(k, va, UserTables.TaskMap(k, va))
  {
    hide LeafBits, Output, RightsOf, SamePage, OnPage, Byte;
    UserPages(va);
    BundleRights(UserRx);
    BundleRights(UserRw);
    OutputByte(k.code, va);
    OutputByte(k.stack, va);
  }

  lemma TaskPermits(m: Mem, k: UserTables.Task, va: bv64)
    requires UserTables.Fit(k) && UserTables.WiredIn(m, k)
    ensures TaskSees(k, va, Translate(m, k.l0, va))
  {
    hide Translate, UserTables.Fit, UserTables.WiredIn, UserTables.TaskMap, TaskSees;
    UserTables.WiredTranslates(m, k, va);
    MapPermits(k, va);
  }

  /** The page at base shows the page at pa, with these rights. */
  ghost predicate PageShows(m: Mem, root: bv64, base: bv64, pa: bv64, rights: Rights) {
    forall v: bv64 :: OnPage(v, base) ==> Sees(Translate(m, root, v), Byte(pa, v), rights)
  }

  lemma PageOfVa(v: bv64, va: bv64)
    requires OnPage(v, va & 0x0000_FFFF_FFFF_C000)
    ensures SamePage(v, va)
  {
  }

  /** A successful mapping shows its page with the rights and the kind of memory its name says. */
  lemma MappedPermits(t: Tables, s: State, s1: State, va: bv64, pa: bv64, a: Attr, r: Result<()>)
    requires Mapped(t, s, s1, va, pa, a, r) && r.Ok? && (a.Device? || a.Framebuffer?)
    ensures PageShows(s1.mem, t.l0, va & 0x0000_FFFF_FFFF_C000, pa, if a.Device? then REGISTERS else PIXELS)
  {
    hide Translate, Grew, IoremapResult, TablesMissing, LeafBits, RightsOf, Output, KindOf, SamePage, OnPage, Byte;
    BundleRights(a);
    forall v: bv64 | OnPage(v, va & 0x0000_FFFF_FFFF_C000)
      ensures Sees(Translate(s1.mem, t.l0, v), Byte(pa, v), if a.Device? then REGISTERS else PIXELS)
    {
      PageOfVa(v, va);
      OutputByte(pa, v);
    }
  }

  /** When a request is refused before any table is looked at. */
  lemma RefusedExactly(t: Tables, m: Mem, cursor: nat, va: bv64, pa: bv64)
    ensures IoremapResult(t, m, cursor, va, pa) == Err(Misaligned) <==> va & 0x3FFF != 0 || pa & 0x3FFF != 0
    ensures IoremapResult(t, m, cursor, va, pa) == Err(NotKernelVa) <==>
      va & 0x3FFF == 0 && pa & 0x3FFF == 0 && va >> 48 != 0xFFFF
  {
    hide BlockOnPath, TablesMissing;
  }
}
