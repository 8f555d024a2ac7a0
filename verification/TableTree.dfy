/** Trees of translation tables: what linking an empty table and writing one page descriptor do to
    the translation of every address. */
module TableTree {
  import opened Descriptors

  /** Where a table hangs: its level, and the entry of its one parent. */
  datatype Place = Place(level: int, parent: bv64, idx: bv64)
  /** A table, named by its physical address. */
  datatype Table = Table(pa: bv64)
  type Shape = map<Table, Place>

  function EntryAt(m: Mem, level: int, t: bv64, i: bv64): Entry { Decode(level, Read(m, t, i)) }

  /** The tables of `shape` form a tree under `root`: every table an entry points at is in it, one
      level further down, and hangs from that entry alone. */
  ghost predicate Tree(m: Mem, root: bv64, shape: Shape) {
    && Table(root) in shape && shape[Table(root)].level == 0
    && (forall t :: t in shape ==> 0 <= shape[t].level <= 3)
    && forall t: bv64, i: bv64 :: Table(t) in shape && shape[Table(t)].level < 3 && EntryAt(m, shape[Table(t)].level, t, i).Next? ==>
         var c := EntryAt(m, shape[Table(t)].level, t, i).pa;
         Table(c) in shape && shape[Table(c)] == Place(shape[Table(t)].level + 1, t, i)
  }

  /** What an address translates to, if anything. */
  datatype Target = Unmapped | To(pa: bv64, attrs: bv64)

  function TargetOf(r: Translation): Target {
    match r
    case Fault(_) => Unmapped
    case Maps(pa, attrs) => To(pa, attrs)
  }

  function Translate(m: Mem, root: bv64, va: bv64): Target { TargetOf(Walk(m, root, 0, va)) }

  /** One step of the walk. */
  lemma WalkStep(m: Mem, t: bv64, level: int, va: bv64)
    requires 0 <= level <= 3
    ensures var e := EntryAt(m, level, t, Index(level, va));
      && (e.Next? ==> level < 3)
      && Walk(m, t, level, va) == match e
         case Hole => Fault(level)
         case Next(pa) => Walk(m, pa, level + 1, va)
         case Leaf(out, attrs) => Maps(Output(level, out, va), attrs)
  {
    hide Index, Output;
  }

  /** One step down the tree. */
  lemma Descend(m: Mem, root: bv64, shape: Shape, t: bv64, i: bv64)
    requires Tree(m, root, shape) && Table(t) in shape && EntryAt(m, shape[Table(t)].level, t, i).Next?
    ensures var c := Table(EntryAt(m, shape[Table(t)].level, t, i).pa);
      c in shape && shape[c] == Place(shape[Table(t)].level + 1, t, i)
  {
  }

  datatype Option<+T> = None | Some(value: T)

  /** The table a walk from t at `level` reads at level `goal`, if it gets that far. */
  function TableFor(m: Mem, t: bv64, level: int, goal: int, va: bv64): Option<bv64>
    requires 0 <= level <= goal <= 3
    decreases goal - level
  {
    if level == goal then Some(t)
    else match EntryAt(m, level, t, Index(level, va))
      case Next(pa) => TableFor(m, pa, level + 1, goal, va)
      case _ => None
  }

  /** Two walks that read the same table took the same way to it. */
  lemma {:induction false} OneWayToEachTable(m: Mem, root: bv64, shape: Shape, t: bv64, level: int,
                                             goal: int, va: bv64, t1: bv64, va1: bv64)
    requires Tree(m, root, shape) && 0 <= level <= goal <= 3
    requires Table(t) in shape && shape[Table(t)].level == level && Table(t1) in shape && shape[Table(t1)].level == level
    requires TableFor(m, t, level, goal, va).Some?
    requires TableFor(m, t, level, goal, va) == TableFor(m, t1, level, goal, va1)
    ensures t == t1 && forall l :: level <= l < goal ==> Index(l, va) == Index(l, va1)
    ensures Table(TableFor(m, t, level, goal, va).value) in shape
    ensures shape[Table(TableFor(m, t, level, goal, va).value)].level == goal
    decreases goal - level
  {
    hide Decode, Index, Output;
    if level < goal {
      var c := EntryAt(m, level, t, Index(level, va)).pa;
      var c1 := EntryAt(m, level, t1, Index(level, va1)).pa;
      OneWayToEachTable(m, root, shape, c, level + 1, goal, va, c1, va1);
    }
  }

  /** And addresses with the same indices are walked through the same tables. */
  lemma {:induction false} SameIndicesSameTable(m: Mem, t: bv64, level: int, goal: int, va: bv64, va1: bv64)
    requires 0 <= level <= goal <= 3
    requires forall l :: level <= l < goal ==> Index(l, va) == Index(l, va1)
    ensures TableFor(m, t, level, goal, va) == TableFor(m, t, level, goal, va1)
    decreases goal - level
  {
    hide Decode, Index, Output;
    if level < goal && EntryAt(m, level, t, Index(level, va)).Next? {
      SameIndicesSameTable(m, EntryAt(m, level, t, Index(level, va)).pa, level + 1, goal, va, va1);
    }
  }

  // ---- Linking an empty table into a hole ---------------------------------------------

  /** A table of the pool: zero, and not part of the tree. */
  ghost predicate Blank(m: Mem, shape: Shape, n: bv64) {
    PageAligned(n) && Table(n) !in shape && forall i: bv64 :: Read(m, n, i) == 0
  }

  ghost predicate CanLink(m: Mem, root: bv64, shape: Shape, t: bv64, i: bv64, n: bv64) {
    && Tree(m, root, shape) && Table(t) in shape && shape[Table(t)].level < 3
    && EntryAt(m, shape[Table(t)].level, t, i) == Hole && Blank(m, shape, n)
  }

  function Linked(m: Mem, t: bv64, i: bv64, n: bv64): Mem { Put(m, t, i, TableDesc(n)) }

  lemma LinkedEntries(m: Mem, root: bv64, shape: Shape, t: bv64, i: bv64, n: bv64, u: bv64, j: bv64, level: int)
    requires CanLink(m, root, shape, t, i, n) && level <= 3
    ensures u == t && j == i && level == shape[Table(t)].level ==> EntryAt(Linked(m, t, i, n), level, u, j) == Next(n)
    ensures u != t || j != i ==> EntryAt(Linked(m, t, i, n), level, u, j) == EntryAt(m, level, u, j)
    ensures u == n ==> EntryAt(Linked(m, t, i, n), level, u, j) == Hole
  {
    hide Decode, TableDesc;
    TableRoundTrip(n, shape[Table(t)].level);
    ZeroIsHole(level);
  }

  lemma LinkKeepsTree(m: Mem, root: bv64, shape: Shape, t: bv64, i: bv64, n: bv64)
    requires CanLink(m, root, shape, t, i, n)
    ensures Tree(Linked(m, t, i, n), root, shape[Table(n) := Place(shape[Table(t)].level + 1, t, i)])
  {
    hide Decode, TableDesc, EntryAt, Linked;
    var m1 := Linked(m, t, i, n);
    var shape1 := shape[Table(n) := Place(shape[Table(t)].level + 1, t, i)];
    forall u: bv64, j: bv64 | Table(u) in shape1 && shape1[Table(u)].level < 3 && EntryAt(m1, shape1[Table(u)].level, u, j).Next?
      ensures
        var c := EntryAt(m1, shape1[Table(u)].level, u, j).pa;
        Table(c) in shape1 && shape1[Table(c)] == Place(shape1[Table(u)].level + 1, u, j)
    {
      assert 0 <= shape1[Table(u)].level <= 3 by { if u != n { assert Table(u) in shape; } }
      LinkedEntries(m, root, shape, t, i, n, u, j, shape1[Table(u)].level);
    }
  }

  /** Where the hole was, the walk now falls into an empty table: no address translates
      differently. */
  lemma {:induction false} LinkChangesNothing(m: Mem, root: bv64, shape: Shape, t: bv64, i: bv64, n: bv64,
                                              u: bv64, level: int, va: bv64)
    requires CanLink(m, root, shape, t, i, n)
    requires Table(u) in shape && shape[Table(u)].level == level && 0 <= level <= 3
    ensures TargetOf(Walk(Linked(m, t, i, n), u, level, va)) == TargetOf(Walk(m, u, level, va))
    decreases 3 - level
  {
    hide Index, Output, Linked, EntryAt, Walk, Tree;
    var m1 := Linked(m, t, i, n);
    var j := Index(level, va);
    LinkedEntries(m, root, shape, t, i, n, u, j, level);
    WalkStep(m, u, level, va);
    WalkStep(m1, u, level, va);
    if u == t && j == i {
      LinkedEntries(m, root, shape, t, i, n, n, Index(level + 1, va), level + 1);
      WalkStep(m1, n, level + 1, va);
    } else if EntryAt(m, level, u, j).Next? {
      Descend(m, root, shape, u, j);
      LinkChangesNothing(m, root, shape, t, i, n, EntryAt(m, level, u, j).pa, level + 1, va);
    }
  }

  // ---- Writing one page descriptor --------------------------------------------------------

  function WithPage(m: Mem, t: bv64, i: bv64, pa: bv64, a: Attr): Mem { Put(m, t, i, PageDesc(pa, a)) }

  lemma PageEntries(m: Mem, t: bv64, i: bv64, pa: bv64, a: Attr, u: bv64, j: bv64, level: int)
    requires PageAligned(pa)
    ensures u == t && j == i && level == 3 ==> EntryAt(WithPage(m, t, i, pa, a), level, u, j) == Leaf(pa, LeafBits(a))
    ensures u != t || j != i ==> EntryAt(WithPage(m, t, i, pa, a), level, u, j) == EntryAt(m, level, u, j)
  {
    hide Decode, PageDesc, LeafBits;
    PageRoundTrip(pa, a);
  }

  lemma PageKeepsTree(m: Mem, root: bv64, shape: Shape, t: bv64, i: bv64, pa: bv64, a: Attr)
    requires Tree(m, root, shape) && Table(t) in shape && shape[Table(t)].level == 3
    ensures Tree(WithPage(m, t, i, pa, a), root, shape)
  {
    hide Decode, PageDesc;
    var m1 := WithPage(m, t, i, pa, a);
    forall u: bv64, j: bv64 | Table(u) in shape && shape[Table(u)].level < 3 && EntryAt(m1, shape[Table(u)].level, u, j).Next?
      ensures
        var c := EntryAt(m1, shape[Table(u)].level, u, j).pa;
        Table(c) in shape && shape[Table(c)] == Place(shape[Table(u)].level + 1, u, j)
    {
      assert EntryAt(m1, shape[Table(u)].level, u, j) == EntryAt(m, shape[Table(u)].level, u, j);
    }
  }

  /** Exactly the walks that read the written entry change. */
  lemma {:induction false} PageChangesOneEntry(m: Mem, root: bv64, shape: Shape, t: bv64, i: bv64,
                                               pa: bv64, a: Attr, u: bv64, level: int, va: bv64)
    requires Tree(m, root, shape) && Table(t) in shape && shape[Table(t)].level == 3 && PageAligned(pa)
    requires Table(u) in shape && shape[Table(u)].level == level && 0 <= level <= 3
    ensures Walk(WithPage(m, t, i, pa, a), u, level, va) ==
      if TableFor(m, u, level, 3, va) == Some(t) && Index(3, va) == i
      then Maps(Output(3, pa, va), LeafBits(a))
      else Walk(m, u, level, va)
    decreases 3 - level
  {
    hide Index, Output, WithPage, LeafBits, EntryAt, Walk, Tree;
    var m1 := WithPage(m, t, i, pa, a);
    var j := Index(level, va);
    PageEntries(m, t, i, pa, a, u, j, level);
    WalkStep(m, u, level, va);
    WalkStep(m1, u, level, va);
    if EntryAt(m, level, u, j).Next? {
      Descend(m, root, shape, u, j);
      PageChangesOneEntry(m, root, shape, t, i, pa, a, EntryAt(m, level, u, j).pa, level + 1, va);
    }
  }

  /** One written page descriptor changes the translation of one page: the page of the address
      whose walk reads that entry. */
  lemma {:induction false} PageMapsOnePage(m: Mem, root: bv64, shape: Shape, t: bv64, va0: bv64, pa: bv64, a: Attr, va: bv64)
    requires Tree(m, root, shape) && PageAligned(pa)
    requires TableFor(m, root, 0, 3, va0) == Some(t)
    ensures Table(t) in shape && shape[Table(t)].level == 3
    ensures Translate(WithPage(m, t, Index(3, va0), pa, a), root, va) ==
      if SamePage(va, va0) then To(Output(3, pa, va), LeafBits(a)) else Translate(m, root, va)
  {
    hide Decode, Index, Output, PageDesc, LeafBits, SamePage, Walk;
    OneWayToEachTable(m, root, shape, root, 0, 3, va0, root, va0);
    PageChangesOneEntry(m, root, shape, t, Index(3, va0), pa, a, root, 0, va);
    IndicesDeterminePage(va, va0);
    if SamePage(va, va0) {
      SameIndicesSameTable(m, root, 0, 3, va0, va);
    } else if TableFor(m, root, 0, 3, va) == Some(t) {
      OneWayToEachTable(m, root, shape, root, 0, 3, va, root, va0);
    }
  }

  // ---- Permissions over the whole tree ---------------------------------------------------------

  predicate SafeLeaf(attrs: bv64, kernelOnly: bool) {
    && !(Writable(attrs) && Executable(attrs)) && Accessed(attrs)
    && (kernelOnly ==> !El0Access(attrs))
  }

  /** No leaf anywhere in the tree is writable and executable, every leaf has AF set, and if the
      tree is the kernel's, no leaf is open to EL0. */
  ghost predicate SafeTree(m: Mem, shape: Shape, kernelOnly: bool) {
    forall t: bv64, i: bv64 :: Table(t) in shape && EntryAt(m, shape[Table(t)].level, t, i).Leaf? ==>
      SafeLeaf(EntryAt(m, shape[Table(t)].level, t, i).attrs, kernelOnly)
  }

  lemma LinkKeepsSafe(m: Mem, root: bv64, shape: Shape, t: bv64, i: bv64, n: bv64, kernelOnly: bool)
    requires CanLink(m, root, shape, t, i, n) && SafeTree(m, shape, kernelOnly)
    ensures SafeTree(Linked(m, t, i, n), shape[Table(n) := Place(shape[Table(t)].level + 1, t, i)], kernelOnly)
  {
    hide Decode, TableDesc, EntryAt, Linked, SafeLeaf;
    var m1 := Linked(m, t, i, n);
    var shape1 := shape[Table(n) := Place(shape[Table(t)].level + 1, t, i)];
    forall u: bv64, j: bv64 | Table(u) in shape1 && EntryAt(m1, shape1[Table(u)].level, u, j).Leaf?
      ensures SafeLeaf(EntryAt(m1, shape1[Table(u)].level, u, j).attrs, kernelOnly)
    {
      assert 0 <= shape1[Table(u)].level <= 3 by { if u != n { assert Table(u) in shape; } }
      LinkedEntries(m, root, shape, t, i, n, u, j, shape1[Table(u)].level);
    }
  }

  lemma PageKeepsSafe(m: Mem, shape: Shape, t: bv64, i: bv64, pa: bv64, a: Attr, kernelOnly: bool)
    requires SafeTree(m, shape, kernelOnly) && Table(t) in shape && shape[Table(t)].level == 3 && PageAligned(pa)
    requires kernelOnly ==> !a.UserRw? && !a.UserRx?
    ensures SafeTree(WithPage(m, t, i, pa, a), shape, kernelOnly)
  {
    hide Decode, PageDesc, LeafBits, Writable, Executable, Accessed, El0Access;
    PageRoundTrip(pa, a);
    BundlesAreSafe(a);
    var m1 := WithPage(m, t, i, pa, a);
    forall u: bv64, j: bv64 | Table(u) in shape && EntryAt(m1, shape[Table(u)].level, u, j).Leaf?
      ensures SafeLeaf(EntryAt(m1, shape[Table(u)].level, u, j).attrs, kernelOnly)
    {
      if u != t || j != i { assert EntryAt(m1, shape[Table(u)].level, u, j) == EntryAt(m, shape[Table(u)].level, u, j); }
    }
  }

  /** A translation that exists comes from a leaf of the tree. */
  lemma {:induction false} TranslationsAreSafe(m: Mem, root: bv64, shape: Shape, kernelOnly: bool,
                                               u: bv64, level: int, va: bv64)
    requires Tree(m, root, shape) && SafeTree(m, shape, kernelOnly)
    requires Table(u) in shape && shape[Table(u)].level == level && 0 <= level <= 3
    ensures Walk(m, u, level, va).Maps? ==> SafeLeaf(Walk(m, u, level, va).attrs, kernelOnly)
    decreases 3 - level
  {
    hide Decode, Index, Output, SafeLeaf;
    var e := EntryAt(m, level, u, Index(level, va));
    if e.Next? && level < 3 {
      TranslationsAreSafe(m, root, shape, kernelOnly, e.pa, level + 1, va);
    }
  }
}
