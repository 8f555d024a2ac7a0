/** A task's own tree of translation tables, as `wire_user_tables` writes it, and why writing it
    cannot be felt in any other tree. */
module UserTables {
  import opened Descriptors
  import opened TableTree

  const USER_CODE_VA: bv64 := 0x10_0000
  const USER_STACK_VA: bv64 := 0x20_0000

  /** The four tables and two pages of a task. */
  datatype Task = Task(l0: bv64, l1: bv64, l2: bv64, l3: bv64, code: bv64, stack: bv64)

  predicate Fit(k: Task) {
    && PageAligned(k.l0) && PageAligned(k.l1) && PageAligned(k.l2) && PageAligned(k.l3)
    && PageAligned(k.code) && PageAligned(k.stack)
    && k.l0 != k.l1 && k.l0 != k.l2 && k.l0 != k.l3 && k.l1 != k.l2 && k.l1 != k.l3 && k.l2 != k.l3
  }

  predicate Own(k: Task, u: bv64) { u == k.l0 || u == k.l1 || u == k.l2 || u == k.l3 }

  /** Nothing in the tables but what an earlier wiring may have put there. */
  ghost predicate Clean(m: Mem, k: Task) {
    && (forall j: bv64 :: j != 0 ==> Read(m, k.l0, j) == 0 && Read(m, k.l1, j) == 0 && Read(m, k.l2, j) == 0)
    && (forall j: bv64 :: j != 64 && j != 128 ==> Read(m, k.l3, j) == 0)
  }

  function Trunk(m: Mem, k: Task): Mem {
    var m1 := Put(m, k.l0, Index(0, USER_CODE_VA), TableDesc(k.l1));
    var m2 := Put(m1, k.l1, Index(1, USER_CODE_VA), TableDesc(k.l2));
    Put(m2, k.l2, Index(2, USER_CODE_VA), TableDesc(k.l3))
  }

  function Wired(m: Mem, k: Task): Mem {
    var m1 := Put(Trunk(m, k), k.l3, Index(3, USER_CODE_VA), PageDesc(k.code, UserRx));
    Put(m1, k.l3, Index(3, USER_STACK_VA), PageDesc(k.stack, UserRw))
  }

  lemma UserIndices()
    ensures Index(0, USER_CODE_VA) == 0 && Index(1, USER_CODE_VA) == 0 && Index(2, USER_CODE_VA) == 0
    ensures Index(3, USER_CODE_VA) == 64 && Index(3, USER_STACK_VA) == 128
    ensures Index(0, USER_STACK_VA) == 0 && Index(1, USER_STACK_VA) == 0 && Index(2, USER_STACK_VA) == 0
  {
  }

  lemma TrunkRead(m: Mem, k: Task, u: bv64, j: bv64)
    requires Fit(k)
    ensures Read(Trunk(m, k), u, j) ==
      if u == k.l0 && j == 0 then TableDesc(k.l1)
      else if u == k.l1 && j == 0 then TableDesc(k.l2)
      else if u == k.l2 && j == 0 then TableDesc(k.l3)
      else Read(m, u, j)
  {
    hide Read, Put, TableDesc, Index, PageAligned;
    UserIndices();
    var m1 := Put(m, k.l0, 0, TableDesc(k.l1));
    PutRead(m, k.l0, 0, TableDesc(k.l1), u, j);
    PutRead(m1, k.l1, 0, TableDesc(k.l2), u, j);
    PutRead(Put(m1, k.l1, 0, TableDesc(k.l2)), k.l2, 0, TableDesc(k.l3), u, j);
  }

  lemma WiredRead(m: Mem, k: Task, u: bv64, j: bv64)
    requires Fit(k)
    ensures Read(Wired(m, k), u, j) ==
      if u == k.l0 && j == 0 then TableDesc(k.l1)
      else if u == k.l1 && j == 0 then TableDesc(k.l2)
      else if u == k.l2 && j == 0 then TableDesc(k.l3)
      else if u == k.l3 && j == 64 then PageDesc(k.code, UserRx)
      else if u == k.l3 && j == 128 then PageDesc(k.stack, UserRw)
      else Read(m, u, j)
  {
    hide Read, Put, TableDesc, PageDesc, Index, PageAligned, Trunk;
    UserIndices();
    TrunkRead(m, k, u, j);
    var m3 := Trunk(m, k);
    PutRead(m3, k.l3, 64, PageDesc(k.code, UserRx), u, j);
    PutRead(Put(m3, k.l3, 64, PageDesc(k.code, UserRx)), k.l3, 128, PageDesc(k.stack, UserRw), u, j);
  }

  /** The task's tables hold its three table entries, its two pages, and nothing else. */
  ghost predicate WiredIn(m: Mem, k: Task) {
    && (forall j: bv64 :: Read(m, k.l0, j) == if j == 0 then TableDesc(k.l1) else 0)
    && (forall j: bv64 :: Read(m, k.l1, j) == if j == 0 then TableDesc(k.l2) else 0)
    && (forall j: bv64 :: Read(m, k.l2, j) == if j == 0 then TableDesc(k.l3) else 0)
    && (forall j: bv64 :: Read(m, k.l3, j) == L3Desc(k, j))
  }

  function L3Desc(k: Task, j: bv64): bv64 {
    if j == 64 then PageDesc(k.code, UserRx) else if j == 128 then PageDesc(k.stack, UserRw) else 0
  }

  lemma WiredAt(m: Mem, k: Task, j: bv64)
    requires Fit(k) && Clean(m, k)
    ensures Read(Wired(m, k), k.l0, j) == if j == 0 then TableDesc(k.l1) else 0
    ensures Read(Wired(m, k), k.l1, j) == if j == 0 then TableDesc(k.l2) else 0
    ensures Read(Wired(m, k), k.l2, j) == if j == 0 then TableDesc(k.l3) else 0
    ensures Read(Wired(m, k), k.l3, j) == L3Desc(k, j)
  {
    hide Read, Wired, TableDesc, PageDesc, PageAligned;
    WiredRead(m, k, k.l0, j);
    WiredRead(m, k, k.l1, j);
    WiredRead(m, k, k.l2, j);
    WiredRead(m, k, k.l3, j);
  }

  lemma WiringWires(m: Mem, k: Task)
    requires Fit(k) && Clean(m, k)
    ensures WiredIn(Wired(m, k), k)
    ensures forall u, j :: !Own(k, u) ==> Read(Wired(m, k), u, j) == Read(m, u, j)
  {
    hide Read, Wired, TableDesc, PageDesc, Fit, Clean, L3Desc;
    var m1 := Wired(m, k);
    forall j: bv64
      ensures Read(m1, k.l0, j) == if j == 0 then TableDesc(k.l1) else 0
      ensures Read(m1, k.l1, j) == if j == 0 then TableDesc(k.l2) else 0
      ensures Read(m1, k.l2, j) == if j == 0 then TableDesc(k.l3) else 0
      ensures Read(m1, k.l3, j) == L3Desc(k, j)
    {
      WiredAt(m, k, j);
    }
    forall u, j | !Own(k, u) ensures Read(m1, u, j) == Read(m, u, j) {
      WiredRead(m, k, u, j);
    }
  }

  /** A wired task can be wired again: what the second wiring finds is clean. */
  lemma WiredIsClean(m: Mem, k: Task)
    requires WiredIn(m, k)
    ensures Clean(m, k)
  {
    hide Read, TableDesc, PageDesc;
  }

  lemma WiredEntries(m: Mem, k: Task, j: bv64)
    requires Fit(k) && WiredIn(m, k)
    ensures EntryAt(m, 0, k.l0, j) == (if j == 0 then Next(k.l1) else Hole)
    ensures EntryAt(m, 1, k.l1, j) == (if j == 0 then Next(k.l2) else Hole)
    ensures EntryAt(m, 2, k.l2, j) == (if j == 0 then Next(k.l3) else Hole)
    ensures EntryAt(m, 3, k.l3, j) ==
      (if j == 64 then Leaf(k.code, LeafBits(UserRx)) else if j == 128 then Leaf(k.stack, LeafBits(UserRw)) else Hole)
  {
    hide Read, TableDesc, PageDesc, PageAligned, LeafBits, Decode;
    TableRoundTrip(k.l1, 0);
    TableRoundTrip(k.l2, 1);
    TableRoundTrip(k.l3, 2);
    PageRoundTrip(k.code, UserRx);
    PageRoundTrip(k.stack, UserRw);
    ZeroIsHole(0);
    ZeroIsHole(1);
    ZeroIsHole(2);
    ZeroIsHole(3);
  }

  /** What the task is to see: its code page, its stack page, and nothing else. */
  function TaskMap(k: Task, va: bv64): Target {
    if SamePage(va, USER_CODE_VA) then To(Output(3, k.code, va), LeafBits(UserRx))
    else if SamePage(va, USER_STACK_VA) then To(Output(3, k.stack, va), LeafBits(UserRw))
    else Unmapped
  }

  lemma WiredTranslates(m: Mem, k: Task, va: bv64)
    requires Fit(k) && WiredIn(m, k)
    ensures Translate(m, k.l0, va) == TaskMap(k, va)
  {
    hide Index, EntryAt, Walk, Output, LeafBits, SamePage, Fit, WiredIn;
    WiredEntries(m, k, Index(0, va));
    WiredEntries(m, k, Index(1, va));
    WiredEntries(m, k, Index(2, va));
    WiredEntries(m, k, Index(3, va));
    WalkStep(m, k.l0, 0, va);
    WalkStep(m, k.l1, 1, va);
    WalkStep(m, k.l2, 2, va);
    WalkStep(m, k.l3, 3, va);
    UserIndices();
    IndicesDeterminePage(va, USER_CODE_VA);
    IndicesDeterminePage(va, USER_STACK_VA);
  }

  function TaskShape(k: Task): Shape {
    map[Table(k.l0) := Place(0, 0, 0), Table(k.l1) := Place(1, k.l0, 0), Table(k.l2) := Place(2, k.l1, 0),
        Table(k.l3) := Place(3, k.l2, 0)]
  }

  lemma ShapeOf(k: Task)
    requires Fit(k)
    ensures var s := TaskShape(k);
      && s.Keys == {Table(k.l0), Table(k.l1), Table(k.l2), Table(k.l3)}
      && s[Table(k.l0)] == Place(0, 0, 0) && s[Table(k.l1)] == Place(1, k.l0, 0)
      && s[Table(k.l2)] == Place(2, k.l1, 0) && s[Table(k.l3)] == Place(3, k.l2, 0)
  {
    hide PageAligned;
  }

  /** A wired task's tables form a tree, and every leaf in them, at whatever entry, is safe: never
      writable and executable, and accessible. */
  lemma WiredIsSafe(m: Mem, k: Task)
    requires Fit(k) && WiredIn(m, k)
    ensures Tree(m, k.l0, TaskShape(k)) && SafeTree(m, TaskShape(k), false)
  {
    hide EntryAt, WiredIn, TaskShape, SafeLeaf, Fit;
    ShapeOf(k);
    forall u: bv64, j: bv64 | Table(u) in TaskShape(k)
      ensures OnwardAndSafe(EntryAt(m, TaskShape(k)[Table(u)].level, u, j), k, TaskShape(k)[Table(u)].level, u, j)
    {
      TaskEntry(m, k, u, j);
    }
  }

  ghost predicate OnwardAndSafe(e: Entry, k: Task, level: int, u: bv64, j: bv64) {
    && (e.Next? && level < 3 ==> Table(e.pa) in TaskShape(k) && TaskShape(k)[Table(e.pa)] == Place(level + 1, u, j))
    && (e.Leaf? ==> SafeLeaf(e.attrs, false))
  }

  lemma TrunkEntries(m: Mem, k: Task, j: bv64)
    requires Fit(k) && WiredIn(m, k)
    ensures OnwardAndSafe(EntryAt(m, 0, k.l0, j), k, 0, k.l0, j)
    ensures OnwardAndSafe(EntryAt(m, 1, k.l1, j), k, 1, k.l1, j)
    ensures OnwardAndSafe(EntryAt(m, 2, k.l2, j), k, 2, k.l2, j)
  {
    hide EntryAt, WiredIn, TaskShape, LeafBits, SafeLeaf, Fit;
    ShapeOf(k);
    WiredEntries(m, k, j);
  }

  lemma LeafEntries(m: Mem, k: Task, j: bv64)
    requires Fit(k) && WiredIn(m, k)
    ensures OnwardAndSafe(EntryAt(m, 3, k.l3, j), k, 3, k.l3, j)
  {
    hide EntryAt, WiredIn, TaskShape, LeafBits, SafeLeaf, Fit;
    UserBundleSafe(UserRx);
    UserBundleSafe(UserRw);
    WiredEntries(m, k, j);
  }

  lemma TaskEntry(m: Mem, k: Task, u: bv64, j: bv64)
    requires Fit(k) && WiredIn(m, k) && Table(u) in TaskShape(k)
    ensures OnwardAndSafe(EntryAt(m, TaskShape(k)[Table(u)].level, u, j), k, TaskShape(k)[Table(u)].level, u, j)
  {
    hide EntryAt, WiredIn, TaskShape, Fit, OnwardAndSafe;
    ShapeOf(k);
    TrunkEntries(m, k, j);
    LeafEntries(m, k, j);
  }

  lemma UserBundleSafe(a: Attr)
    ensures SafeLeaf(LeafBits(a), false)
  {
    hide LeafBits, Writable, Executable, Accessed;
    BundlesAreSafe(a);
  }

  // ---- Two tasks --------------------------------------------------------------------------------

  /** No table belongs to both. */
  ghost predicate Apart(k: Task, k1: Task) { forall u: bv64 :: !(Own(k, u) && Own(k1, u)) }

  predicate PagesApart(k: Task, k1: Task) {
    k.code != k1.code && k.code != k1.stack && k.stack != k1.code && k.stack != k1.stack
  }

  lemma PageOfOutput(page: bv64, va: bv64)
    requires page & 0x3FFF == 0
    ensures (page | (va & 0x3FFF)) & 0xFFFF_FFFF_FFFF_C000 == page
  {
  }

  lemma OutputsApart(a: bv64, va: bv64, b: bv64, vb: bv64)
    requires a & 0x3FFF == 0 && b & 0x3FFF == 0 && a != b
    ensures a | (va & 0x3FFF) != b | (vb & 0x3FFF)
  {
    PageOfOutput(a, va);
    PageOfOutput(b, vb);
  }

  lemma PagesSeen(a: bv64, va: bv64, b: bv64, vb: bv64)
    requires PageAligned(a) && PageAligned(b) && a != b
    ensures Output(3, a, va) != Output(3, b, vb)
  {
    OutputsApart(a, va, b, vb);
  }

  /** Two wired tasks with pages of their own have no byte of memory in common: their address
      spaces are apart, which is what lets the scheduler's model key user memory by root table. */
  lemma SpacesApart(m: Mem, k: Task, k1: Task, va: bv64, va1: bv64)
    requires Fit(k) && Fit(k1) && WiredIn(m, k) && WiredIn(m, k1) && PagesApart(k, k1)
    requires Translate(m, k.l0, va).To? && Translate(m, k1.l0, va1).To?
    ensures Translate(m, k.l0, va).pa != Translate(m, k1.l0, va1).pa
  {
    hide Translate, TaskMap, PageFor, WiredIn, Fit, Output, PagesApart, PageAligned;
    WiredTranslates(m, k, va);
    WiredTranslates(m, k1, va1);
    PageSeen(k, va);
    PageSeen(k1, va1);
    PagesDiffer(k, va, k1, va1);
    PagesSeen(PageFor(k, va), va, PageFor(k1, va1), va1);
  }

  /** The page an address of the task would lie in. */
  function PageFor(k: Task, va: bv64): bv64 { if SamePage(va, USER_CODE_VA) then k.code else k.stack }

  lemma PageSeen(k: Task, va: bv64)
    ensures TaskMap(k, va).To? ==> TaskMap(k, va).pa == Output(3, PageFor(k, va), va)
  {
    hide SamePage, Output, LeafBits;
  }

  lemma PagesDiffer(k: Task, va: bv64, k1: Task, va1: bv64)
    requires Fit(k) && Fit(k1) && PagesApart(k, k1)
    ensures PageFor(k, va) != PageFor(k1, va1) && PageAligned(PageFor(k, va)) && PageAligned(PageFor(k1, va1))
  {
    hide SamePage, PageAligned;
  }

  // ---- Trees apart --------------------------------------------------------------------------

  /** The two memories agree on the tables of the tree. */
  ghost predicate AgreeOn(m: Mem, m1: Mem, shape: Shape) {
    forall u: bv64, j: bv64 :: Table(u) in shape ==> Read(m1, u, j) == Read(m, u, j)
  }

  lemma {:induction false} FrameWalk(m: Mem, m1: Mem, root: bv64, shape: Shape, u: bv64, level: int, va: bv64)
    requires Tree(m, root, shape) && AgreeOn(m, m1, shape)
    requires Table(u) in shape && shape[Table(u)].level == level && 0 <= level <= 3
    ensures Walk(m1, u, level, va) == Walk(m, u, level, va)
    decreases 3 - level
  {
    hide Index, Decode, Output, Read, Walk, Tree;
    WalkStep(m, u, level, va);
    WalkStep(m1, u, level, va);
    if EntryAt(m, level, u, Index(level, va)).Next? {
      Descend(m, root, shape, u, Index(level, va));
      FrameWalk(m, m1, root, shape, EntryAt(m, level, u, Index(level, va)).pa, level + 1, va);
    }
  }

  lemma FrameTree(m: Mem, m1: Mem, root: bv64, shape: Shape)
    requires Tree(m, root, shape) && AgreeOn(m, m1, shape)
    ensures Tree(m1, root, shape)
    ensures forall k :: SafeTree(m, shape, k) ==> SafeTree(m1, shape, k)
  {
    hide Decode, Read, SafeLeaf;
    forall u: bv64, i: bv64 | Table(u) in shape ensures EntryAt(m1, shape[Table(u)].level, u, i) == EntryAt(m, shape[Table(u)].level, u, i) {
    }
  }
}
