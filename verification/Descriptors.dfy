/** Translation table descriptors of the 16 KiB granule, bit by bit, and the walk the hardware
    performs over them (Arm Architecture Reference Manual, DDI 0487, chapter D8). */
module Descriptors {

  const PA_MASK: bv64 := 0x0000_FFFF_FFFF_C000
  const BLOCK_MASK: bv64 := 0x0000_FFFF_FE00_0000
  const ATTR_MASK: bv64 := 0xFFFF_0000_0000_3FFC
  const VA_MASK: bv64 := 0x0000_FFFF_FFFF_FFFF
  const PAGE_OFFSET: bv64 := 0x3FFF
  const BLOCK_OFFSET: bv64 := 0x1FF_FFFF

  const AF: bv64 := 1 << 10
  const AP_EL0: bv64 := 1 << 6      // AP[1]: EL0 may access
  const AP_RO: bv64 := 1 << 7       // AP[2]: nobody may write
  const PXN: bv64 := 1 << 53
  const UXN: bv64 := 1 << 54
  const SH_INNER: bv64 := 3 << 8

  datatype Attr = TextRx | Ro | Rw | Device | UserRw | UserRx | Framebuffer

  /** `leaf_bits`. */
  function LeafBits(a: Attr): bv64 {
    match a
    case TextRx => AF | SH_INNER | AP_RO | UXN
    case Ro => AF | SH_INNER | AP_RO | PXN | UXN
    case Rw => AF | SH_INNER | PXN | UXN
    case Device => AF | (1 << 2) | PXN | UXN
    case UserRw => AF | SH_INNER | AP_EL0 | PXN | UXN
    case UserRx => AF | SH_INNER | AP_RO | AP_EL0 | PXN
    case Framebuffer => AF | SH_INNER | (2 << 2) | PXN | UXN
  }

  function TableDesc(pa: bv64): bv64 { pa | 3 }
  function BlockDesc(pa: bv64, a: Attr): bv64 { pa | LeafBits(a) | 1 }
  function PageDesc(pa: bv64, a: Attr): bv64 { pa | LeafBits(a) | 3 }

  /** The index a level takes from a virtual address; bits 63 to 48 play no part. */
  function Index(level: int, va: bv64): bv64 {
    if level == 0 then (va >> 47) & 1
    else if level == 1 then (va >> 36) & 0x7FF
    else if level == 2 then (va >> 25) & 0x7FF
    else (va >> 14) & 0x7FF
  }

  /** A leaf supplies the upper bits of the output address, the virtual address the rest. */
  function Output(level: int, out: bv64, va: bv64): bv64 {
    out | (va & (if level == 2 then BLOCK_OFFSET else PAGE_OFFSET))
  }

  // ---- Memory and the walk -----------------------------------------------------------

  /** Table memory: descriptors by table address and index. What was never written is zero. */
  type Mem = map<(bv64, bv64), bv64>

  function Read(m: Mem, t: bv64, i: bv64): bv64 { if (t, i) in m then m[(t, i)] else 0 }

  function Put(m: Mem, t: bv64, i: bv64, d: bv64): Mem { m[(t, i) := d] }

  lemma PutRead(m: Mem, t: bv64, i: bv64, d: bv64, u: bv64, j: bv64)
    ensures Read(Put(m, t, i, d), u, j) == if u == t && j == i then d else Read(m, u, j)
  {
  }

  datatype Entry = Hole | Next(pa: bv64) | Leaf(out: bv64, attrs: bv64)

  /** What a descriptor means at a level: tables descend at levels 0 to 2, blocks exist at level 2
      only, and at level 3 the table encoding is a page and the block encoding is invalid. */
  function Decode(level: int, d: bv64): Entry {
    if d & 3 == 3 then
      if level < 3 then Next(d & PA_MASK) else Leaf(d & PA_MASK, d & ATTR_MASK)
    else if d & 3 == 1 && level == 2 then Leaf(d & BLOCK_MASK, d & ATTR_MASK)
    else Hole
  }

  datatype Translation = Fault(level: int) | Maps(pa: bv64, attrs: bv64)

  /** The specification walker. */
  function Walk(m: Mem, t: bv64, level: int, va: bv64): Translation
    requires 0 <= level <= 3
    decreases 3 - level
  {
    match Decode(level, Read(m, t, Index(level, va)))
    case Hole => Fault(level)
    case Next(pa) => if level < 3 then Walk(m, pa, level + 1, va) else Fault(level)
    case Leaf(out, attrs) => Maps(Output(level, out, va), attrs)
  }

  // ---- Round trips -----------------------------------------------------------------------

  predicate PageAligned(pa: bv64) { pa & 0x3FFF == 0 && pa & 0x0000_FFFF_FFFF_FFFF == pa }
  predicate BlockAligned(pa: bv64) { pa & 0x1FF_FFFF == 0 && pa & 0x0000_FFFF_FFFF_FFFF == pa }

  lemma TableBits(pa: bv64)
    requires PageAligned(pa)
    ensures (pa | 3) & 3 == 3 && (pa | 3) & 0x0000_FFFF_FFFF_C000 == pa && (pa | 3) & 0xFFFF_0000_0000_3FFC == 0
  {
  }

  lemma PageBits(pa: bv64, b: bv64)
    requires PageAligned(pa) && b & 0xFFFF_0000_0000_3FFC == b
    ensures (pa | b | 3) & 3 == 3 && (pa | b | 3) & 0x0000_FFFF_FFFF_C000 == pa
    ensures (pa | b | 3) & 0xFFFF_0000_0000_3FFC == b
  {
  }

  lemma BlockBits(pa: bv64, b: bv64)
    requires BlockAligned(pa) && b & 0xFFFF_0000_0000_3FFC == b
    ensures (pa | b | 1) & 3 == 1 && (pa | b | 1) & 0x0000_FFFF_FE00_0000 == pa
    ensures (pa | b | 1) & 0xFFFF_0000_0000_3FFC == b
  {
  }

  lemma LeafBitsFit(a: Attr)
    ensures LeafBits(a) & 0xFFFF_0000_0000_3FFC == LeafBits(a)
  {
  }

  lemma DecodeTable(d: bv64, pa: bv64, level: int)
    requires level < 3 && d & 3 == 3 && d & 0x0000_FFFF_FFFF_C000 == pa
    ensures Decode(level, d) == Next(pa)
  {
  }

  lemma DecodePage(d: bv64, pa: bv64, b: bv64)
    requires d & 3 == 3 && d & 0x0000_FFFF_FFFF_C000 == pa && d & 0xFFFF_0000_0000_3FFC == b
    ensures Decode(3, d) == Leaf(pa, b)
  {
  }

  lemma DecodeBlock(d: bv64, pa: bv64, b: bv64, level: int)
    requires d & 3 == 1 && d & 0x0000_FFFF_FE00_0000 == pa && d & 0xFFFF_0000_0000_3FFC == b
    ensures Decode(level, d) == if level == 2 then Leaf(pa, b) else Hole
  {
  }

  lemma PageDecodes(pa: bv64, b: bv64)
    requires PageAligned(pa) && b & 0xFFFF_0000_0000_3FFC == b
    ensures Decode(3, pa | b | 3) == Leaf(pa, b)
  {
    hide Decode, PageAligned;
    PageBits(pa, b);
    DecodePage(pa | b | 3, pa, b);
  }

  lemma BlockDecodes(pa: bv64, b: bv64, level: int)
    requires BlockAligned(pa) && b & 0xFFFF_0000_0000_3FFC == b
    ensures Decode(level, pa | b | 1) == if level == 2 then Leaf(pa, b) else Hole
  {
    hide Decode, BlockAligned;
    BlockBits(pa, b);
    DecodeBlock(pa | b | 1, pa, b, level);
  }

  /** Decoding what the constructors build gives back the address and the attributes, each at
      its own level and at no other. */
  lemma TableRoundTrip(pa: bv64, level: int)
    requires PageAligned(pa) && level < 3
    ensures Decode(level, TableDesc(pa)) == Next(pa)
  {
    hide Decode, PageAligned;
    TableBits(pa);
    DecodeTable(pa | 3, pa, level);
  }

  lemma PageRoundTrip(pa: bv64, a: Attr)
    requires PageAligned(pa)
    ensures Decode(3, PageDesc(pa, a)) == Leaf(pa, LeafBits(a))
  {
    hide Decode, LeafBits, PageAligned;
    LeafBitsFit(a);
    PageDecodes(pa, LeafBits(a));
  }

  lemma BlockRoundTrip(pa: bv64, a: Attr, level: int)
    requires BlockAligned(pa) && level <= 3
    ensures Decode(level, BlockDesc(pa, a)) == if level == 2 then Leaf(pa, LeafBits(a)) else Hole
  {
    hide Decode, LeafBits, BlockAligned;
    LeafBitsFit(a);
    BlockDecodes(pa, LeafBits(a), level);
  }

  /** The page constructor loses nothing exactly when its address is a 48-bit granule: the source
      masks nothing, so any other bit of the address would land among the attributes. */
  lemma PageRoundTripExactly(pa: bv64, a: Attr)
    ensures Decode(3, PageDesc(pa, a)) == Leaf(pa, LeafBits(a)) <==> PageAligned(pa)
  {
    if PageAligned(pa) {
      PageRoundTrip(pa, a);
    } else {
      UnalignedBits(pa, PageDesc(pa, a));
    }
  }

  lemma UnalignedBits(pa: bv64, d: bv64)
    requires !PageAligned(pa)
    ensures d & 0x0000_FFFF_FFFF_C000 != pa
  {
  }

  lemma ZeroIsHole(level: int)
    ensures Decode(level, 0) == Hole
  {
  }

  /** Do two addresses lie in the same 16 KiB page, bits 63 to 48 aside? */
  predicate SamePage(va: bv64, va1: bv64) {
    va & 0x0000_FFFF_FFFF_C000 == va1 & 0x0000_FFFF_FFFF_C000
  }

  predicate SameIndices(va: bv64, va1: bv64) {
    && Index(0, va) == Index(0, va1) && Index(1, va) == Index(1, va1)
    && Index(2, va) == Index(2, va1) && Index(3, va) == Index(3, va1)
  }

  lemma IndicesToPage(va: bv64, va1: bv64)
    requires (va >> 47) & 1 == (va1 >> 47) & 1 && (va >> 36) & 0x7FF == (va1 >> 36) & 0x7FF
    requires (va >> 25) & 0x7FF == (va1 >> 25) & 0x7FF && (va >> 14) & 0x7FF == (va1 >> 14) & 0x7FF
    ensures SamePage(va, va1)
  {
  }

  lemma PageToIndices(va: bv64, va1: bv64)
    requires SamePage(va, va1)
    ensures (va >> 47) & 1 == (va1 >> 47) & 1 && (va >> 36) & 0x7FF == (va1 >> 36) & 0x7FF
    ensures (va >> 25) & 0x7FF == (va1 >> 25) & 0x7FF && (va >> 14) & 0x7FF == (va1 >> 14) & 0x7FF
  {
  }

  lemma SamePageSameIndices(va: bv64, va1: bv64)
    requires SamePage(va, va1)
    ensures SameIndices(va, va1)
  {
    hide SamePage;
    PageToIndices(va, va1);
  }

  lemma SameIndicesSamePage(va: bv64, va1: bv64)
    requires SameIndices(va, va1)
    ensures SamePage(va, va1)
  {
    hide SamePage;
    IndicesToPage(va, va1);
  }

  /** The four indices determine the page of a 48-bit address, and the page determines them. */
  lemma IndicesDeterminePage(va: bv64, va1: bv64)
    ensures SamePage(va, va1) <==> SameIndices(va, va1)
  {
    hide SamePage, SameIndices;
    if SamePage(va, va1) { SamePageSameIndices(va, va1); }
    if SameIndices(va, va1) { SameIndicesSamePage(va, va1); }
  }

  /** Indices and offset put together again are the address: 1, 11, 11, 11 and 14 bits of it. */
  lemma AddressFromIndices(va: bv64)
    ensures va & 0x0000_FFFF_FFFF_FFFF ==
      (Index(0, va) << 47) | (Index(1, va) << 36) | (Index(2, va) << 25) | (Index(3, va) << 14) | (va & 0x3FFF)
    ensures Index(0, va) <= 1 && Index(1, va) <= 0x7FF && Index(2, va) <= 0x7FF && Index(3, va) <= 0x7FF
  {
  }

  // ---- Permissions ---------------------------------------------------------------------------

  predicate Writable(attrs: bv64) { attrs & AP_RO == 0 }
  predicate Executable(attrs: bv64) { attrs & PXN == 0 || attrs & UXN == 0 }
  predicate El0Access(attrs: bv64) { attrs & AP_EL0 != 0 }
  predicate Accessed(attrs: bv64) { attrs & AF != 0 }

  /** No bundle is writable and executable, none lacks AF, and exactly the two user bundles are
      open to EL0. */
  lemma BundlesAreSafe(a: Attr)
    ensures !(Writable(LeafBits(a)) && Executable(LeafBits(a)))
    ensures Accessed(LeafBits(a))
    ensures El0Access(LeafBits(a)) <==> a.UserRw? || a.UserRx?
  {
  }

  /** Every bit of every bundle (DDI 0487, D8.3): bit 53 forbids fetches to the kernel, bit 54 to user
      code, bit 7 writes to both, bit 6 admits user code at all, bits 4 to 2 select the memory type,
      bits 9 and 8 the shareability domain. */
  lemma BundleBits(a: Attr)
    ensures LeafBits(a) & 0x0020_0000_0000_0000 == 0 <==> a.TextRx?
    ensures LeafBits(a) & 0x0040_0000_0000_0000 == 0 <==> a.UserRx?
    ensures LeafBits(a) & 0x80 == 0 <==> a.Rw? || a.Device? || a.UserRw? || a.Framebuffer?
    ensures LeafBits(a) & 0x40 != 0 <==> a.UserRw? || a.UserRx?
    ensures LeafBits(a) & 0x1C == if a.Device? then 0x4 else if a.Framebuffer? then 0x8 else 0
    ensures LeafBits(a) & 0x300 == if a.Device? then 0 else 0x300
    ensures LeafBits(a) & 0x400 != 0 && LeafBits(a) & 0xFF9F_FFFF_FFFF_F823 == 0
  {
  }
}
