/** `mmu.rs` as it runs: the table memory is written in place, the pool cursor only grows. */
module Mmu {
  import opened Words
  import opened Descriptors
  import opened TableTree
  import opened TableBuilder
  import opened MemoryMap
  import opened StaticTables
  import opened TableState
  import opened AddressSpaces
  import opened Permissions
  import UserTables

  class Memory {
    const t: Tables
    var mem: Mem
    var runtimeIdx: u64
    ghost var shape: Shape
    ghost var tasks: set<UserTables.Task>     // the tasks wired so far

    ghost function View(): State
      reads this
    {
      State(mem, shape, runtimeIdx)
    }

    ghost function All(): World
      reads this
    {
      World(View(), tasks)
    }

    /** The kernel's tree, the pool, the condemned root and every task's tree. */
    ghost predicate Valid()
      reads this
    {
      Good(t, All())
    }

    /** The zeroed static `TABLES`, wherever its granules lie. */
    constructor (base: bv64)
      requires Aligned(base) && base <= 0x0000_FFFF_FFFC_0000
      ensures t == TablesAt(base) && Placed(t)
      ensures mem == map[] && runtimeIdx == 0 && tasks == {}
    {
      hide TablesAt, Placed, Aligned;
      t := TablesAt(base);
      mem, runtimeIdx, shape, tasks := map[], 0, map[], {};
      new;
      StaticIsPlaced(base);
    }

    // `opal_build_tables`, one method for each of its numbered steps.

    method KernelLeaf(l: Layout, delta: bv64, pa: bv64) returns (desc: Option<bv64>)
      ensures desc == match KernelAttr(l, pa)
        case None => None
        case Some(a) => Some(PageDesc(KernelOut(l, delta, pa), a))
    {
      hide PageDesc, Lt, Moved;
      var out := if !Lt(pa, TEXT_START) && Lt(pa, l.stackTop) then Moved(pa, delta) else pa;
      if Lt(pa, TEXT_START) {
        desc := Some(PageDesc(out, Ro));           // the DTB window
      } else if Lt(pa, l.textEnd) {
        desc := Some(PageDesc(out, TextRx));
      } else if Lt(pa, l.rodataEnd) {
        desc := Some(PageDesc(out, Ro));
      } else if Lt(pa, l.guardBottom) {
        desc := Some(PageDesc(out, Rw));
      } else if Lt(pa, l.stackBottom) {
        desc := None;                              // the guard
      } else {
        desc := Some(PageDesc(out, Rw));
      }
    }

    method WriteKernelLeaf(l: Layout, delta: bv64, i: bv64)
      modifies this`mem
      ensures mem == WithKernelLeaf(old(mem), t.l3Kernel, l, delta, i)
    {
      hide PageDesc, KernelAttr, KernelOut, ImagePage, Put;
      var desc := KernelLeaf(l, delta, ImagePage(i));
      if desc.Some? {
        mem := Put(mem, t.l3Kernel, i, desc.value);
      }
    }

    method KernelLeaves(l: Layout, delta: bv64)
      modifies this`mem
      ensures mem == KernelPages(old(mem), t.l3Kernel, l, delta, 2048)
    {
      hide KernelPages, DevicePages, RamBlocks, WithKernelLeaf;
      var i: bv64 := 0;
      NothingFilled(mem, t.l3Kernel, l, delta, 0);
      while i < 2048
        invariant i <= 2048
        invariant mem == KernelPages(old(mem), t.l3Kernel, l, delta, i)
        decreases 2048 - i
      {
        WriteKernelLeaf(l, delta, i);
        KernelPagesStep(old(mem), t.l3Kernel, l, delta, i);
        i := i + 1;
      }
    }

    method MmioLeaves()
      modifies this`mem
      ensures mem == TableBuilder.Mmio(old(mem), t.l3Mmio)
    {
      hide PageDesc, Put, Index, DevicePages, KernelPages, RamBlocks;
      mem := Put(mem, t.l3Mmio, Index(3, UART0_BASE), PageDesc(UART0_BASE, Device));
      ghost var m1 := mem;
      NothingFilled(m1, t.l3Mmio, Layout(0, 0, 0, 0, 0), 0, GICD_BASE);
      var i: bv64 := 0;
      while i < 4
        invariant i <= 4
        invariant mem == DevicePages(m1, t.l3Mmio, GICD_BASE, i)
        decreases 4 - i
      {
        DevicePagesStep(m1, t.l3Mmio, GICD_BASE, i);
        var pa := GICD_BASE + (i << 14);
        mem := Put(mem, t.l3Mmio, Index(3, pa), PageDesc(pa, Device));
        i := i + 1;
      }
      ghost var m2 := mem;
      NothingFilled(m2, t.l3Mmio, Layout(0, 0, 0, 0, 0), 0, GICC_BASE);
      i := 0;
      while i < 4
        invariant i <= 4
        invariant mem == DevicePages(m2, t.l3Mmio, GICC_BASE, i)
        decreases 4 - i
      {
        DevicePagesStep(m2, t.l3Mmio, GICC_BASE, i);
        var pa := GICC_BASE + (i << 14);
        mem := Put(mem, t.l3Mmio, Index(3, pa), PageDesc(pa, Device));
        i := i + 1;
      }
    }

    method L2Backbone()
      modifies this`mem
      ensures mem == Backbone(old(mem), t)
    {
      hide TableDesc, BlockDesc, Put, Index, DevicePages, KernelPages, RamBlocks;
      FixedIndices();
      mem := Put(mem, t.l2, Index(2, UART0_BASE), TableDesc(t.l3Mmio));
      mem := Put(mem, t.l2, Index(2, IMAGE_BASE), TableDesc(t.l3Kernel));
      ghost var m1 := mem;
      NothingFilled(m1, t.l2, Layout(0, 0, 0, 0, 0), 0, 0);
      var slot := Index(2, IMAGE_BASE) + 1;
      while slot < Index(2, RAM_END)
        invariant 33 <= slot <= 48
        invariant mem == RamBlocks(m1, t.l2, 33, slot)
        decreases 48 - slot
      {
        RamBlocksStep(m1, t.l2, slot);
        mem := Put(mem, t.l2, slot, BlockDesc(slot << 25, Rw));
        slot := slot + 1;
      }
      mem := Put(mem, t.l2, Index(2, RAM_END), BlockDesc(RAM_END, Device));
    }

    method TheTrunk()
      modifies this`mem
      ensures mem == Trunk(old(mem), t)
    {
      hide TableDesc, Put, Index;
      mem := Put(mem, t.l1, Index(1, IMAGE_BASE), TableDesc(t.l2));
      mem := Put(mem, t.l0, Index(0, IMAGE_BASE), TableDesc(t.l1));
    }

    /** `opal_build_tables`, on zeroed tables. */
    method OpalBuildTables(l: Layout, delta: bv64) returns (root: bv64)
      requires Placed(t) && Linked16K(l) && Displacement(delta) && mem == map[] && runtimeIdx == 0 && tasks == {}
      modifies this
      ensures Valid() && root == t.l0 && All() == Boot(t, l, delta)
      ensures forall va :: Translate(mem, root, va) == Region(l, delta, Offset(va))
      ensures forall va :: Permits(l, delta, va & 0x0000_FFFF_FFFF_FFFF, Translate(mem, root, va))
    {
      hide Permits, KernelPages, TableBuilder.Mmio, Backbone, Trunk, Placed, Linked16K, Displacement, Region, Offset, Translate,
        Good, BuiltShape;
      KernelLeaves(l, delta);
      MmioLeaves();
      L2Backbone();
      TheTrunk();
      root := t.l0;
      shape := BuiltShape(t);
      BootIsGood(t, l, delta);
      forall va ensures Translate(mem, root, va) == Region(l, delta, Offset(va)) {
        BuiltTranslates(t, l, delta, va);
      }
      forall va ensures Permits(l, delta, va & 0x0000_FFFF_FFFF_FFFF, Translate(mem, root, va)) {
        BuiltPermits(t, l, delta, va);
      }
    }

    // ---- Runtime mappings ----------------------------------------------------------------

    /** `alloc_runtime_table`: the cursor moves even when the pool is empty. */
    method AllocRuntimeTable() returns (r: Option<bv64>)
      requires Placed(t)
      modifies this`runtimeIdx
      ensures runtimeIdx == WrappingAdd(old(runtimeIdx), 1)
      ensures r == if old(runtimeIdx) < 8 then Some(t.runtime[old(runtimeIdx)]) else None
    {
      hide PageAligned, Inside;
      var idx := runtimeIdx;
      runtimeIdx := WrappingAdd(runtimeIdx, 1);
      if idx >= 8 {
        return None;
      }
      return Some(t.runtime[idx]);
    }

    /** `ensure_table`: the table behind an entry, linked in from the pool if there is none. */
    method EnsureTable(table: bv64, i: bv64) returns (r: Result<bv64>)
      requires Sound(t, mem, shape, runtimeIdx) && |t.runtime| == 8
      requires Table(table) in shape && 1 <= shape[Table(table)].level <= 2
      requires runtimeIdx < U64_MAX
      modifies this`mem, this`runtimeIdx, this`shape
      ensures View() == AfterEnsure(t, old(View()), table, old(shape)[Table(table)].level, i)
      ensures r == EnsureResult(t, old(mem), old(runtimeIdx), table, i)
      ensures Sound(t, mem, shape, runtimeIdx) && Ensured(t, old(View()), View(), table, i, r)
    {
      hide EntryAt, Linked, Sound, Ensured, Placed, Missing, IsTable, IsBlock, Read, NextPa, Grew;
      EnsureMeaning(t, View(), table, i);
      assert Placed(t) by { SoundPlaced(t, mem, shape, runtimeIdx); }
      var desc := Read(mem, table, i);
      Kinds(desc);
      if IsTable(desc) {
        return Ok(NextPa(desc));
      } else if Missing(desc) {
        var next := AllocRuntimeTable();
        if next.None? {
          return Err(OutOfTables);
        }
        shape := shape[Table(next.value) := Place(shape[Table(table)].level + 1, table, i)];
        mem := Linked(mem, table, i, next.value);
        return Ok(next.value);
      } else {
        return Err(BlockInPath);
      }
    }

    /** The common part of `ioremap_device` and `ioremap_framebuffer`. */
    method Ioremap(va: bv64, pa: bv64, a: Attr) returns (r: Result<()>)
      requires Valid() && runtimeIdx < U64_MAX - 1 && pa & VA_MASK == pa && !a.UserRw? && !a.UserRx?
      modifies this`mem, this`runtimeIdx, this`shape
      ensures Valid() && Mapped(t, old(View()), View(), va, pa, a, r)
      ensures |t.runtime| == 8 && View() == AfterIoremap(t, old(View()), va, pa, a)
    {
      hide EntryAt, Good, Sound, Ensured, Placed, Missing, IsTable, IsBlock, Read, NextPa, Index, OffGranule, KernelVa, Mapped,
        WithPage, PageDesc, PageAligned, AfterEnsure, EnsureResult, IoremapResult, Grew;
      ghost var s, w := View(), All();
      GoodIsSound(t, w);
      IoremapMeaning(t, s, va, pa, a);
      ghost var s3 := AfterIoremap(t, s, va, pa, a);
      MappedGrows(t, s, s3, va, pa, a);
      GrowthKeepsGood(t, w, s3);
      Refusals(t, mem, runtimeIdx, va, pa);
      if OffGranule(va) || OffGranule(pa) {
        return Err(Misaligned);
      }
      if !KernelVa(va) {
        return Err(NotKernelVa);
      }
      var l0Desc := Read(mem, t.l0, Index(0, va));
      if !IsTable(l0Desc) {
        return Err(BlockInPath);
      }
      var l1 := NextPa(l0Desc);
      TrunkEntry(t, s, va);
      var r1 := EnsureTable(l1, Index(1, va));
      ghost var s1 := View();
      if r1.Err? {
        EnsureMeaning(t, s, l1, Index(1, va));
        FirstFails(t, s, s1, va, pa, a, r1.error);
        MappedResult(t, s, s1, va, pa, a, Err(r1.error));
        return Err(r1.error);
      }
      NextLevel(t, s, s1, l1, Index(1, va), r1.value);
      var r2 := EnsureTable(r1.value, Index(2, va));
      ghost var s2 := View();
      if r2.Err? {
        EnsureMeaning(t, s, l1, Index(1, va));
        EnsureMeaning(t, s1, r1.value, Index(2, va));
        GrewTwice(t, s, s1, s2);
        SecondFails(t, s, s1, s2, va, pa, a, r1.value, r2.error);
        MappedResult(t, s, s2, va, pa, a, Err(r2.error));
        return Err(r2.error);
      }
      BothFound(t, s, s1, s2, va, pa, r1.value, r2.value);
      mem := WithPage(mem, r2.value, Index(3, va), pa, a);
      return Ok(());
    }

    method IoremapDevice(va: bv64, pa: bv64) returns (r: Result<()>)
      requires Valid() && runtimeIdx < U64_MAX - 1 && pa & VA_MASK == pa
      modifies this`mem, this`runtimeIdx, this`shape
      ensures Valid() && Mapped(t, old(View()), View(), va, pa, Device, r)
      ensures |t.runtime| == 8 && All() == Apply(t, old(All()), MapDevice(va, pa))
      ensures r.Ok? ==> PageShows(mem, t.l0, va & 0x0000_FFFF_FFFF_C000, pa, REGISTERS)
      ensures r == Err(Misaligned) <==> va & 0x3FFF != 0 || pa & 0x3FFF != 0
      ensures r == Err(NotKernelVa) <==> va & 0x3FFF == 0 && pa & 0x3FFF == 0 && va >> 48 != 0xFFFF
    {
      hide Good, Mapped, AfterIoremap, PageShows, IoremapResult;
      RefusedExactly(t, mem, runtimeIdx, va, pa);
      r := Ioremap(va, pa, Device);
      if r.Ok? { MappedPermits(t, old(View()), View(), va, pa, Device, r); }
      MappedResult(t, old(View()), View(), va, pa, Device, r);
    }

    method IoremapFramebuffer(va: bv64, pa: bv64) returns (r: Result<()>)
      requires Valid() && runtimeIdx < U64_MAX - 1 && pa & VA_MASK == pa
      modifies this`mem, this`runtimeIdx, this`shape
      ensures Valid() && Mapped(t, old(View()), View(), va, pa, Framebuffer, r)
      ensures |t.runtime| == 8 && All() == Apply(t, old(All()), MapFramebuffer(va, pa))
      ensures r.Ok? ==> PageShows(mem, t.l0, va & 0x0000_FFFF_FFFF_C000, pa, PIXELS)
      ensures r == Err(Misaligned) <==> va & 0x3FFF != 0 || pa & 0x3FFF != 0
      ensures r == Err(NotKernelVa) <==> va & 0x3FFF == 0 && pa & 0x3FFF == 0 && va >> 48 != 0xFFFF
    {
      hide Good, Mapped, AfterIoremap, PageShows, IoremapResult;
      RefusedExactly(t, mem, runtimeIdx, va, pa);
      r := Ioremap(va, pa, Framebuffer);
      if r.Ok? { MappedPermits(t, old(View()), View(), va, pa, Framebuffer, r); }
      MappedResult(t, old(View()), View(), va, pa, Framebuffer, r);
    }

    /** `wire_user_tables`: the task sees exactly its two pages, no other tree sees anything. */
    method WireUserTables(k: UserTables.Task)
      requires Valid() && Admissible(t, All(), Wire(k))
      modifies this`mem, this`tasks
      ensures Valid() && |t.runtime| == 8 && All() == Apply(t, old(All()), Wire(k))
      ensures forall va :: Translate(mem, k.l0, va) == UserTables.TaskMap(k, va)
      ensures forall va :: TaskSees(k, va, Translate(mem, k.l0, va))
      ensures forall va :: Translate(mem, t.l0, va) == Translate(old(mem), t.l0, va)
      ensures forall u, j :: !UserTables.Own(k, u) ==> Read(mem, u, j) == Read(old(mem), u, j)
    {
      hide TaskSees, Good, Sound, UserTables.Fit, UserTables.Clean, UserTables.Apart, UserTables.WiredIn, UserTables.TaskMap, Outside,
        TableDesc, PageDesc, Put, Read, Index, Translate;
      GoodIsSound(t, All());
      WiringKeepsGood(t, All(), k);
      WireFindsClean(t, All(), k);
      WiringIsSound(t, View(), k);
      UserTables.WiringWires(mem, k);
      forall va ensures Translate(UserTables.Wired(mem, k), k.l0, va) == UserTables.TaskMap(k, va) {
        UserTables.WiredTranslates(UserTables.Wired(mem, k), k, va);
      }
      forall va ensures TaskSees(k, va, Translate(UserTables.Wired(mem, k), k.l0, va)) {
        TaskPermits(UserTables.Wired(mem, k), k, va);
      }
      mem := Put(mem, k.l0, Index(0, UserTables.USER_CODE_VA), TableDesc(k.l1));
      mem := Put(mem, k.l1, Index(1, UserTables.USER_CODE_VA), TableDesc(k.l2));
      mem := Put(mem, k.l2, Index(2, UserTables.USER_CODE_VA), TableDesc(k.l3));
      mem := Put(mem, k.l3, Index(3, UserTables.USER_CODE_VA), PageDesc(k.code, UserRx));
      mem := Put(mem, k.l3, Index(3, UserTables.USER_STACK_VA), PageDesc(k.stack, UserRw));
      tasks := tasks + {k};
    }

    /** What `walk` reports for va from a root: the specification walk in the kernel's tree, a stop at once
        at the condemned root, and no read at all of a table outside the static. */
    ghost predicate Reported(root: bv64, va: bv64, r: Report)
      reads this
    {
      && (root == t.l0 ==> r == ReportOf(Walk(mem, t.l0, 0, va)))
      && (root == t.emptyRoot ==> r == Stops(0))
      && (!InRange(t, root) ==> r == OutsideTables(0))
    }

    /** `walk`: an address of the upper half is walked from the root in TTBR1, one of the lower half from
        the root in TTBR0, bit 0 and the ASID aside; all others are refused. */
    method WalkTables(va: bv64, ttbr0: bv64, ttbr1: bv64) returns (r: Report)
      requires Valid()
      ensures va >> 48 == 0xFFFF ==> Reported(ttbr1 & 0x0000_FFFF_FFFF_FFFE, va, r)
      ensures va >> 48 == 0 ==> Reported(ttbr0 & 0x0000_FFFF_FFFF_FFFE, va, r)
      ensures va >> 48 != 0xFFFF && va >> 48 != 0 ==> r == NonCanonical
    {
      hide Good, Sound, Walk, Index, Read, IsTable, IsBlock, Missing, NextPa, InRange, RootFor, Canonical,
        PageAddress, BlockAddress;
      GoodIsSound(t, All());
      Halves(va, ttbr0, ttbr1);
      if !Canonical(va) {
        return NonCanonical;
      }
      var root := RootFor(va, ttbr0, ttbr1);
      var table := root;
      assert Table(t.l0) in shape && shape[Table(t.l0)].level == 0 by { SoundRoot(t, View()); }
      for level := 0 to 4
        invariant root == t.l0 ==>
          && level <= 3 && Table(table) in shape && shape[Table(table)].level == level
          && Walk(mem, table, level, va) == Walk(mem, t.l0, 0, va)
        invariant root == t.emptyRoot || !InRange(t, root) ==> level == 0 && table == root
      {
        if root == t.l0 {
          TableTurn(t, View(), table, level, va);
          LeafTurn(mem, table, level, va);
        }
        if root == t.emptyRoot {
          EmptyRootTurn(t, View(), Index(0, va));
        }
        if !InRange(t, table) {
          return OutsideTables(level);
        }
        var desc := Read(mem, table, Index(level, va));
        Kinds(desc);
        if Missing(desc) {
          return Stops(level);
        } else if IsBlock(desc) && level == 3 {
          return Stops(level);
        } else if IsBlock(desc) && level == 2 {
          return Arrives(BlockAddress(desc, va));
        } else if IsBlock(desc) {
          return Stops(level);
        } else if level == 3 {
          return Arrives(PageAddress(desc, va));
        } else {
          table := NextPa(desc);
        }
      }
      r := NonCanonical;
    }
  }
}
