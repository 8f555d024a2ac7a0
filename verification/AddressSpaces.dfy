/** All trees of translation tables at once: the kernel's and every task's. From the built tables
    on, whatever sequence of mappings and wirings follows, each tree stays a tree, no leaf of any
    is writable and executable, and each task goes on seeing its own two pages. */
module AddressSpaces {
  import opened Words
  import opened Descriptors
  import opened TableTree
  import opened TableBuilder
  import opened MemoryMap
  import opened TableState
  import opened UserTables

  /** The kernel's tables and the tasks wired so far. */
  datatype World = World(kernel: State, tasks: set<Task>)

  /** The task's tables lie outside the kernel's static. */
  predicate Outside(t: Tables, k: Task) {
    !InRange(t, k.l0) && !InRange(t, k.l1) && !InRange(t, k.l2) && !InRange(t, k.l3)
  }

  /** What holds of all tables together. Tables nobody has written to are zero. */
  ghost predicate Good(t: Tables, w: World) {
    && Sound(t, w.kernel.mem, w.kernel.shape, w.kernel.cursor)
    && (forall k :: k in w.tasks ==> Fit(k) && Outside(t, k) && WiredIn(w.kernel.mem, k))
    && (forall k, k1 :: k in w.tasks && k1 in w.tasks && k != k1 ==> Apart(k, k1))
    && (forall u: bv64, j: bv64 :: Table(u) !in w.kernel.shape && (forall k :: k in w.tasks ==> !Own(k, u)) ==>
          Read(w.kernel.mem, u, j) == 0)
  }

  // ---- Operations -----------------------------------------------------------------------------

  datatype Op = MapDevice(va: bv64, pa: bv64) | MapFramebuffer(va: bv64, pa: bv64) | Wire(k: Task)

  /** What each operation may be called with. A task is wired into tables of its own, or again into
      the same ones. */
  ghost predicate Admissible(t: Tables, w: World, op: Op) {
    match op
    case MapDevice(_, pa) => pa & VA_MASK == pa
    case MapFramebuffer(_, pa) => pa & VA_MASK == pa
    case Wire(k) => Fit(k) && Outside(t, k) && forall k1 :: k1 in w.tasks && k1 != k ==> Apart(k, k1)
  }

  ghost function Apply(t: Tables, w: World, op: Op): World
    requires |t.runtime| == 8
  {
    match op
    case MapDevice(va, pa) => w.(kernel := AfterIoremap(t, w.kernel, va, pa, Device))
    case MapFramebuffer(va, pa) => w.(kernel := AfterIoremap(t, w.kernel, va, pa, Framebuffer))
    case Wire(k) => World(w.kernel.(mem := Wired(w.kernel.mem, k)), w.tasks + {k})
  }

  /** The world the builder leaves: no task wired, no pool table taken. */
  ghost function Boot(t: Tables, l: Layout, delta: bv64): World {
    World(State(Built(t, l, delta), BuiltShape(t), 0), {})
  }

  ghost function Run(t: Tables, w: World, ops: seq<Op>): World
    requires |t.runtime| == 8
    decreases |ops|
  {
    if ops == [] then w else Run(t, Apply(t, w, ops[0]), ops[1..])
  }

  ghost predicate AllAdmissible(t: Tables, w: World, ops: seq<Op>)
    requires |t.runtime| == 8
    decreases |ops|
  {
    ops == [] || (Admissible(t, w, ops[0]) && AllAdmissible(t, Apply(t, w, ops[0]), ops[1..]))
  }

  // ---- Every operation keeps everything ---------------------------------------------------------

  lemma OutsideIsSeparate(t: Tables, s: State, k: Task, u: bv64)
    requires Sound(t, s.mem, s.shape, s.cursor) && Outside(t, k) && Own(k, u)
    ensures Table(u) !in s.shape && u != t.emptyRoot && u !in t.runtime
  {
    hide Tree, SafeTree, Blank, InRange;
    if Table(u) in s.shape || u == t.emptyRoot {
      TablesInRange(t, s, u);
    }
    if u in t.runtime {
      PoolInRange(t, u);
    }
  }

  lemma PoolInRange(t: Tables, u: bv64)
    requires Placed(t) && u in t.runtime
    ensures InRange(t, u)
  {
    hide Lt, Le, PageAligned;
    var n :| 0 <= n < |t.runtime| && t.runtime[n] == u;
    var all := Fixed(t) + t.runtime;
    assert all[6 + n] == u;
  }

  /** Growing the kernel's tree is not felt by any task. */
  lemma GrowthKeepsGood(t: Tables, w: World, s1: State)
    requires Good(t, w) && Grew(t, w.kernel, s1) && Sound(t, s1.mem, s1.shape, s1.cursor)
    ensures Good(t, w.(kernel := s1))
  {
    hide Sound, WiredIn, Read, Fit, Outside, Apart, Own;
    forall k | k in w.tasks ensures WiredIn(s1.mem, k) {
      GrowthKeepsTask(t, w.kernel, s1, k);
    }
  }

  lemma GrowthKeepsTask(t: Tables, s: State, s1: State, k: Task)
    requires Grew(t, s, s1) && Sound(t, s1.mem, s1.shape, s1.cursor) && Outside(t, k) && WiredIn(s.mem, k)
    ensures WiredIn(s1.mem, k)
  {
    hide Sound, Read, TableDesc, L3Desc, Outside;
    OutsideIsSeparate(t, s1, k, k.l0);
    OutsideIsSeparate(t, s1, k, k.l1);
    OutsideIsSeparate(t, s1, k, k.l2);
    OutsideIsSeparate(t, s1, k, k.l3);
  }

  /** Whatever is to be wired is clean: never written, or wired before. */
  lemma WireFindsClean(t: Tables, w: World, k: Task)
    requires Good(t, w) && Admissible(t, w, Wire(k))
    ensures Clean(w.kernel.mem, k)
  {
    hide Sound, Read, Fit, Outside, WiredIn;
    if k in w.tasks {
      WiredIsClean(w.kernel.mem, k);
    } else {
      forall u, j | Own(k, u) ensures Read(w.kernel.mem, u, j) == 0 {
        OutsideIsSeparate(t, w.kernel, k, u);
      }
    }
  }

  lemma WiringIsSound(t: Tables, s: State, k: Task)
    requires Sound(t, s.mem, s.shape, s.cursor) && Fit(k) && Outside(t, k) && Clean(s.mem, k)
    ensures Sound(t, Wired(s.mem, k), s.shape, s.cursor)
    ensures forall va :: Translate(Wired(s.mem, k), t.l0, va) == Translate(s.mem, t.l0, va)
  {
    hide Tree, SafeTree, Inside, Placed, Walk, Read, Wired, Fit, PageAligned, Outside, Own, WiredIn, Clean;
    var m1 := Wired(s.mem, k);
    WiringWires(s.mem, k);
    forall u | Own(k, u) ensures Table(u) !in s.shape && u != t.emptyRoot && u !in t.runtime {
      OutsideIsSeparate(t, s, k, u);
    }
    assert AgreeOn(s.mem, m1, s.shape);
    FrameTree(s.mem, m1, t.l0, s.shape);
    RootInTree(s.mem, t.l0, s.shape);
    forall va ensures Translate(m1, t.l0, va) == Translate(s.mem, t.l0, va) {
      FrameWalk(s.mem, m1, t.l0, s.shape, t.l0, 0, va);
    }
  }

  lemma WiringKeepsOther(m: Mem, k: Task, k1: Task)
    requires Fit(k) && Clean(m, k) && Apart(k, k1) && WiredIn(m, k1)
    ensures WiredIn(Wired(m, k), k1)
  {
    hide Read, TableDesc, L3Desc, Wired, Fit, Clean, Own;
    WiringWires(m, k);
    OwnTables(k1);
  }

  lemma OwnTables(k: Task)
    ensures Own(k, k.l0) && Own(k, k.l1) && Own(k, k.l2) && Own(k, k.l3)
  {
  }

  lemma WiringKeepsGood(t: Tables, w: World, k: Task)
    requires Good(t, w) && Admissible(t, w, Wire(k))
    ensures |t.runtime| == 8 && Good(t, Apply(t, w, Wire(k)))
  {
    hide Sound, WiredIn, Read, Fit, Outside, Apart, Own, Clean, Wired;
    SoundPlaced(t, w.kernel.mem, w.kernel.shape, w.kernel.cursor);
    WireFindsClean(t, w, k);
    WiringIsSound(t, w.kernel, k);
    WiringWires(w.kernel.mem, k);
    forall k1 | k1 in w.tasks && k1 != k ensures WiredIn(Wired(w.kernel.mem, k), k1) && Apart(k, k1) && Apart(k1, k) {
      WiringKeepsOther(w.kernel.mem, k, k1);
      ApartBothWays(k, k1);
    }
  }

  lemma ApartBothWays(k: Task, k1: Task)
    requires Apart(k, k1)
    ensures Apart(k1, k)
  {
    hide Own;
  }

  lemma OpKeepsGood(t: Tables, w: World, op: Op)
    requires Good(t, w) && Admissible(t, w, op)
    ensures |t.runtime| == 8 && Good(t, Apply(t, w, op))
  {
    hide Good, Sound, Grew, Mapped, AfterIoremap;
    GoodIsSound(t, w);
    match op
    case MapDevice(va, pa) =>
      IoremapMeaning(t, w.kernel, va, pa, Device);
      MappedGrows(t, w.kernel, AfterIoremap(t, w.kernel, va, pa, Device), va, pa, Device);
      GrowthKeepsGood(t, w, AfterIoremap(t, w.kernel, va, pa, Device));
    case MapFramebuffer(va, pa) =>
      IoremapMeaning(t, w.kernel, va, pa, Framebuffer);
      MappedGrows(t, w.kernel, AfterIoremap(t, w.kernel, va, pa, Framebuffer), va, pa, Framebuffer);
      GrowthKeepsGood(t, w, AfterIoremap(t, w.kernel, va, pa, Framebuffer));
    case Wire(k) =>
      WiringKeepsGood(t, w, k);
  }

  lemma GoodIsSound(t: Tables, w: World)
    requires Good(t, w)
    ensures Sound(t, w.kernel.mem, w.kernel.shape, w.kernel.cursor) && |t.runtime| == 8
  {
  }

  lemma MappedGrows(t: Tables, s: State, s1: State, va: bv64, pa: bv64, a: Attr)
    requires Mapped(t, s, s1, va, pa, a, IoremapResult(t, s.mem, s.cursor, va, pa))
    ensures Grew(t, s, s1)
  {
    hide Grew, Translate, IoremapResult, TablesMissing, SamePage, Output, LeafBits;
  }

  lemma {:induction false} RunKeepsGood(t: Tables, w: World, ops: seq<Op>)
    requires |t.runtime| == 8 && Good(t, w) && AllAdmissible(t, w, ops)
    ensures Good(t, Run(t, w, ops))
    ensures w.tasks <= Run(t, w, ops).tasks
    ensures forall i :: 0 <= i < |ops| && ops[i].Wire? ==> ops[i].k in Run(t, w, ops).tasks
    decreases |ops|
  {
    hide Good, Admissible;
    if ops != [] {
      OpKeepsGood(t, w, ops[0]);
      RunKeepsGood(t, Apply(t, w, ops[0]), ops[1..]);
      forall i | 0 <= i < |ops| && ops[i].Wire? ensures ops[i].k in Run(t, w, ops).tasks {
        if i > 0 { assert ops[i] == ops[1..][i - 1]; }
      }
    }
  }

  lemma BootIsGood(t: Tables, l: Layout, delta: bv64)
    requires Placed(t) && Displacement(delta)
    ensures |t.runtime| == 8 && Good(t, Boot(t, l, delta))
  {
    hide Built, Placed, Tree, SafeTree, Blank, Inside, BuiltShape, Displacement, Read;
    EightTables(t);
    BuiltIsTree(t, l, delta);
    BuiltIsSafe(t, l, delta);
    BuiltLeavesPool(t, l, delta);
    forall u: bv64, j: bv64 | Table(u) !in BuiltShape(t) ensures Read(Built(t, l, delta), u, j) == 0 {
      NothingElseBuilt(t, l, delta, u);
    }
  }

  // ---- The theorem --------------------------------------------------------------------------------

  /** The trees of a world, all of them: each is a tree, no leaf of any is writable and executable,
      every leaf has its access flag, no leaf of the kernel's is open to EL0, and each wired task
      sees its code page, its stack page and nothing else. */
  ghost predicate AllTreesSafe(t: Tables, w: World) {
    && Tree(w.kernel.mem, t.l0, w.kernel.shape) && SafeTree(w.kernel.mem, w.kernel.shape, true)
    && (forall va :: Translate(w.kernel.mem, t.l0, va).To? ==> SafeLeaf(Translate(w.kernel.mem, t.l0, va).attrs, true))
    && forall k :: k in w.tasks ==>
         && Tree(w.kernel.mem, k.l0, TaskShape(k)) && SafeTree(w.kernel.mem, TaskShape(k), false)
         && forall va :: Translate(w.kernel.mem, k.l0, va) == TaskMap(k, va)
  }

  lemma GoodIsSafe(t: Tables, w: World)
    requires Good(t, w)
    ensures AllTreesSafe(t, w)
  {
    hide Tree, SafeTree, Inside, Placed, Blank, Translate, TaskMap, SafeLeaf, WiredIn, Fit, Outside, Apart, TaskShape, Read;
    forall va ensures Translate(w.kernel.mem, t.l0, va).To? ==> SafeLeaf(Translate(w.kernel.mem, t.l0, va).attrs, true) {
      KernelIsSafe(t, w.kernel, va);
    }
    forall k | k in w.tasks
      ensures Tree(w.kernel.mem, k.l0, TaskShape(k)) && SafeTree(w.kernel.mem, TaskShape(k), false)
      ensures forall va :: Translate(w.kernel.mem, k.l0, va) == TaskMap(k, va)
    {
      WiredIsSafe(w.kernel.mem, k);
      forall va ensures Translate(w.kernel.mem, k.l0, va) == TaskMap(k, va) { WiredTranslates(w.kernel.mem, k, va); }
    }
  }

  /** After the builder and any sequence of device mappings, framebuffer mappings and wirings, every
      tree is safe, and every task ever wired still sees exactly its own pages. */
  lemma {:induction false} EveryTreeStaysSafe(t: Tables, l: Layout, delta: bv64, ops: seq<Op>)
    requires Placed(t) && |t.runtime| == 8 && Displacement(delta) && AllAdmissible(t, Boot(t, l, delta), ops)
    ensures AllTreesSafe(t, Run(t, Boot(t, l, delta), ops))
    ensures forall i :: 0 <= i < |ops| && ops[i].Wire? ==> ops[i].k in Run(t, Boot(t, l, delta), ops).tasks
  {
    hide Good, AllTreesSafe, Boot, Placed, Displacement;
    BootIsGood(t, l, delta);
    RunKeepsGood(t, Boot(t, l, delta), ops);
    GoodIsSafe(t, Run(t, Boot(t, l, delta), ops));
  }

  /** And tasks with pages of their own have no byte of memory in common, at any time. */
  lemma TasksShareNothing(t: Tables, w: World, k: Task, k1: Task, va: bv64, va1: bv64)
    requires Good(t, w) && k in w.tasks && k1 in w.tasks && PagesApart(k, k1)
    ensures var (a, b) := (Translate(w.kernel.mem, k.l0, va), Translate(w.kernel.mem, k1.l0, va1));
      a.To? && b.To? ==> a.pa != b.pa
  {
    hide Sound, WiredIn, Read, Fit, Outside, Apart, Own, Translate, PagesApart;
    if Translate(w.kernel.mem, k.l0, va).To? && Translate(w.kernel.mem, k1.l0, va1).To? {
      SpacesApart(w.kernel.mem, k, k1, va, va1);
    }
  }
}
