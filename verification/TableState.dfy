/** The state of the translation tables at run time: what makes it sound, what linking a pool table,
    mapping a page and wiring a task do to it, and what a walk finds in it. */
module TableState {
  import opened Words
  import opened Descriptors
  import opened TableTree
  import opened TableBuilder
  import opened MemoryMap

  datatype IoremapError = Misaligned | NotKernelVa | BlockInPath | OutOfTables
  datatype Result<+T> = Ok(value: T) | Err(error: IoremapError)

  /** How the narrated walk ends. */
  datatype Report = NonCanonical | OutsideTables(level: int) | Stops(level: int) | Arrives(pa: bv64)

  predicate Missing(d: bv64) { d & 3 == 0 || d & 3 == 2 }
  predicate IsTable(d: bv64) { d & 3 == 3 }
  predicate IsBlock(d: bv64) { d & 3 == 1 }

  function NextPa(d: bv64): bv64 { d & PA_MASK }

  lemma Kinds(d: bv64)
    ensures IsTable(d) <==> !Missing(d) && !IsBlock(d)
    ensures IsBlock(d) ==> !Missing(d)
  {
  }

  /** What the two low bits decide, at each level. */
  lemma DecodeKinds(level: int, d: bv64)
    ensures level < 3 ==> (IsTable(d) <==> Decode(level, d) == Next(d & PA_MASK)) && (Decode(level, d).Next? ==> IsTable(d))
    ensures level == 3 && IsTable(d) ==> Decode(level, d) == Leaf(d & PA_MASK, d & ATTR_MASK)
    ensures level == 2 && IsBlock(d) ==> Decode(level, d) == Leaf(d & BLOCK_MASK, d & ATTR_MASK)
    ensures Missing(d) || (IsBlock(d) && level != 2) ==> Decode(level, d) == Hole
  {
  }

  function EnsureResult(t: Tables, m: Mem, cursor: nat, table: bv64, i: bv64): Result<bv64>
    requires |t.runtime| == 8
  {
    var desc := Read(m, table, i);
    if IsTable(desc) then Ok(NextPa(desc))
    else if IsBlock(desc) then Err(BlockInPath)
    else if cursor < 8 then Ok(t.runtime[cursor])
    else Err(OutOfTables)
  }

  ghost predicate Sound(t: Tables, m: Mem, shape: Shape, cursor: nat) {
    && |t.runtime| == 8 && Placed(t)
    && Tree(m, t.l0, shape) && SafeTree(m, shape, true)
    && (forall u :: u in shape ==> Inside(t, u.pa))
    && (forall k :: cursor <= k < 8 ==> Blank(m, shape, t.runtime[k]))
    && Blank(m, shape, t.emptyRoot)
  }

  ghost predicate CanTake(t: Tables, m: Mem, shape: Shape, cursor: nat, table: bv64, i: bv64) {
    && Sound(t, m, shape, cursor) && cursor < 8
    && Table(table) in shape && shape[Table(table)].level < 3 && Missing(Read(m, table, i))
  }

  lemma PoolTable(t: Tables, k: nat)
    requires Placed(t) && k < 8
    ensures Inside(t, t.runtime[k]) && t.runtime[k] != t.emptyRoot
    ensures forall k1 :: k < k1 < 8 ==> t.runtime[k1] != t.runtime[k]
  {
    hide PageAligned, Inside;
    var all := Fixed(t) + t.runtime;
    assert all[5] == t.emptyRoot && all[6 + k] == t.runtime[k];
    forall k1 | k < k1 < 8 ensures t.runtime[k1] != t.runtime[k] { assert all[6 + k1] == t.runtime[k1]; }
  }

  lemma CanLinkNext(t: Tables, m: Mem, shape: Shape, cursor: nat, table: bv64, i: bv64)
    requires CanTake(t, m, shape, cursor, table, i)
    ensures CanLink(m, t.l0, shape, table, i, t.runtime[cursor])
  {
    hide Decode, Read, Placed, Tree, SafeTree, Blank, Inside, Missing, IsBlock, IsTable;
    DecodeKinds(shape[Table(table)].level, Read(m, table, i));
    assert shape[Table(table)].level >= 0 by { TreeLevels(m, t.l0, shape, table); }
  }

  lemma TreeLevels(m: Mem, root: bv64, shape: Shape, u: bv64)
    requires Tree(m, root, shape) && Table(u) in shape
    ensures 0 <= shape[Table(u)].level <= 3
  {
    hide EntryAt;
  }

  /** Linking the next table of the pool keeps everything sound and every translation. */
  lemma LinkSound(t: Tables, m: Mem, shape: Shape, cursor: nat, table: bv64, i: bv64)
    requires CanTake(t, m, shape, cursor, table, i)
    ensures var n := t.runtime[cursor];
      Sound(t, Linked(m, table, i, n), shape[Table(n) := Place(shape[Table(table)].level + 1, table, i)], cursor + 1)
  {
    hide Placed, PageAligned, Tree, SafeTree, Inside, Missing, Put, Read, TableDesc, EntryAt, Linked;
    var n := t.runtime[cursor];
    var m1 := Linked(m, table, i, n);
    CanLinkNext(t, m, shape, cursor, table, i);
    LinkKeepsTree(m, t.l0, shape, table, i, n);
    LinkKeepsSafe(m, t.l0, shape, table, i, n, true);
    PoolTable(t, cursor);
    forall u, j | u != table ensures Read(m1, u, j) == Read(m, u, j) { LinkedRead(m, table, i, n, u, j); }
  }

  /** What linking it leaves as it was, and where the walk now gets to. */
  lemma LinkFrame(t: Tables, m: Mem, shape: Shape, cursor: nat, table: bv64, i: bv64)
    requires CanTake(t, m, shape, cursor, table, i)
    ensures var n, level := t.runtime[cursor], shape[Table(table)].level;
      var m1 := Linked(m, table, i, n);
      && Table(n) !in shape && EntryAt(m1, level, table, i) == Next(n)
      && (forall j: bv64 :: Read(m1, n, j) == 0)
      && (forall u, j :: u != table || j != i ==> Read(m1, u, j) == Read(m, u, j))
      && (forall va :: Translate(m1, t.l0, va) == Translate(m, t.l0, va))
  {
    hide Placed, PageAligned, Tree, SafeTree, Inside, Missing, Put, Read, TableDesc, EntryAt, Linked, Walk;
    var n, level := t.runtime[cursor], shape[Table(table)].level;
    var m1 := Linked(m, table, i, n);
    CanLinkNext(t, m, shape, cursor, table, i);
    TreeLevels(m, t.l0, shape, table);
    LinkedEntries(m, t.l0, shape, table, i, n, table, i, level);
    forall u, j ensures u != table || j != i ==> Read(m1, u, j) == Read(m, u, j) {
      LinkedRead(m, table, i, n, u, j);
    }
    RootInTree(m, t.l0, shape);
    forall va ensures Translate(m1, t.l0, va) == Translate(m, t.l0, va) {
      LinkChangesNothing(m, t.l0, shape, table, i, n, t.l0, 0, va);
    }
  }

  lemma EightTables(t: Tables)
    requires Placed(t)
    ensures |t.runtime| == 8
  {
    hide PageAligned, Inside;
  }

  /** An entry with the table encoding leads to a table of the tree. */
  lemma TableEntry(m: Mem, root: bv64, shape: Shape, table: bv64, i: bv64)
    requires Tree(m, root, shape) && Table(table) in shape && shape[Table(table)].level < 3 && IsTable(Read(m, table, i))
    ensures var c, level := NextPa(Read(m, table, i)), shape[Table(table)].level;
      EntryAt(m, level, table, i) == Next(c) && Table(c) in shape && shape[Table(c)].level == level + 1
  {
    hide Decode, Tree, IsTable, Read;
    DecodeKinds(shape[Table(table)].level, Read(m, table, i));
    Descend(m, root, shape, table, i);
  }

  lemma SoundPlaced(t: Tables, m: Mem, shape: Shape, cursor: nat)
    requires Sound(t, m, shape, cursor)
    ensures |t.runtime| == 8 && Placed(t)
  {
  }

  lemma RootInTree(m: Mem, root: bv64, shape: Shape)
    requires Tree(m, root, shape)
    ensures Table(root) in shape && shape[Table(root)].level == 0
  {
    hide EntryAt;
  }

  lemma LinkedRead(m: Mem, table: bv64, i: bv64, n: bv64, u: bv64, j: bv64)
    ensures u != table || j != i ==> Read(Linked(m, table, i, n), u, j) == Read(m, u, j)
  {
    hide TableDesc, Put, Read;
    PutRead(m, table, i, TableDesc(n), u, j);
  }

  /** The state of the tables. */
  datatype State = State(mem: Mem, shape: Shape, cursor: nat)

  /** Nothing outside the tree was written, and the tree lost no table and gained only tables of the
      pool. */
  ghost predicate Grew(t: Tables, s: State, s1: State) {
    && (forall u :: u in s.shape ==> u in s1.shape)
    && (forall u :: u in s1.shape ==> u in s.shape || u.pa in t.runtime)
    && (forall u: bv64, j: bv64 :: Table(u) !in s1.shape ==> Read(s1.mem, u, j) == Read(s.mem, u, j))
  }

  lemma GrewTwice(t: Tables, s: State, s1: State, s2: State)
    requires Grew(t, s, s1) && Grew(t, s1, s2)
    ensures Grew(t, s, s2)
  {
    hide Read;
  }

  /** The state `ensure_table` leaves behind: a blank table of the pool linked in if the entry was
      missing, the cursor moved whether or not there was one. */
  ghost function AfterEnsure(t: Tables, s: State, table: bv64, level: int, i: bv64): State
    requires |t.runtime| == 8
  {
    if !Missing(Read(s.mem, table, i)) then s
    else if s.cursor >= 8 then s.(cursor := s.cursor + 1)
    else
      var n := t.runtime[s.cursor];
      State(Linked(s.mem, table, i, n), s.shape[Table(n) := Place(level + 1, table, i)], s.cursor + 1)
  }

  /** What `ensure_table` did to `s`: the tree grew at most by a blank table behind the entry, no
      other entry changed, and neither did any translation. */
  ghost predicate Ensured(t: Tables, s: State, s1: State, table: bv64, i: bv64, r: Result<bv64>)
    requires |t.runtime| == 8 && Table(table) in s.shape
  {
    var missing := Missing(Read(s.mem, table, i));
    && r == EnsureResult(t, s.mem, s.cursor, table, i)
    && s1.cursor == s.cursor + (if missing then 1 else 0)
    && (r.Ok? ==>
          && Table(r.value) in s1.shape && s1.shape[Table(r.value)].level == s.shape[Table(table)].level + 1
          && EntryAt(s1.mem, s.shape[Table(table)].level, table, i) == Next(r.value))
    && (r.Ok? && missing ==> forall j: bv64 :: Read(s1.mem, r.value, j) == 0)
    && (r.Err? || !missing ==> s1.mem == s.mem)
    && (forall u, j :: u != table || j != i ==> Read(s1.mem, u, j) == Read(s.mem, u, j))
    && (forall u :: u in s.shape ==> u in s1.shape && s1.shape[u] == s.shape[u])
    && (forall va :: Translate(s1.mem, t.l0, va) == Translate(s.mem, t.l0, va))
  }

  lemma EnsuredByLink(t: Tables, s: State, table: bv64, i: bv64)
    requires CanTake(t, s.mem, s.shape, s.cursor, table, i)
    ensures var n := t.runtime[s.cursor];
      var shape1 := s.shape[Table(n) := Place(s.shape[Table(table)].level + 1, table, i)];
      Ensured(t, s, State(Linked(s.mem, table, i, n), shape1, s.cursor + 1), table, i, Ok(n))
  {
    hide EntryAt, Linked, Tree, SafeTree, Blank, Inside, Placed, Translate, Missing, IsTable, IsBlock, Read;
    Kinds(Read(s.mem, table, i));
    LinkFrame(t, s.mem, s.shape, s.cursor, table, i);
  }

  lemma EnsuredAsItWas(t: Tables, s: State, table: bv64, i: bv64)
    requires Sound(t, s.mem, s.shape, s.cursor)
    requires Table(table) in s.shape && s.shape[Table(table)].level < 3
    requires !Missing(Read(s.mem, table, i))
    ensures Ensured(t, s, s, table, i, EnsureResult(t, s.mem, s.cursor, table, i))
  {
    hide EntryAt, Tree, SafeTree, Blank, Inside, Placed, Translate, Missing, IsTable, IsBlock, Read, NextPa;
    Kinds(Read(s.mem, table, i));
    if IsTable(Read(s.mem, table, i)) {
      TableEntry(s.mem, t.l0, s.shape, table, i);
    }
  }

  lemma EnsuredNothing(t: Tables, s: State, table: bv64, i: bv64)
    requires Sound(t, s.mem, s.shape, s.cursor) && Table(table) in s.shape
    requires Missing(Read(s.mem, table, i)) && s.cursor >= 8
    ensures Ensured(t, s, s.(cursor := s.cursor + 1), table, i, Err(OutOfTables))
    ensures Sound(t, s.mem, s.shape, s.cursor + 1)
  {
    hide EntryAt, Tree, SafeTree, Blank, Inside, Placed, Translate, Missing, IsTable, IsBlock, Read, NextPa;
    Kinds(Read(s.mem, table, i));
  }

  /** What it means: everything stays sound, the tree grows, nothing else changes. */
  lemma EnsureMeaning(t: Tables, s: State, table: bv64, i: bv64)
    requires Sound(t, s.mem, s.shape, s.cursor)
    requires Table(table) in s.shape && s.shape[Table(table)].level < 3
    ensures |t.runtime| == 8
    ensures var s1 := AfterEnsure(t, s, table, s.shape[Table(table)].level, i);
      && Sound(t, s1.mem, s1.shape, s1.cursor)
      && Ensured(t, s, s1, table, i, EnsureResult(t, s.mem, s.cursor, table, i))
      && Grew(t, s, s1)
  {
    hide EntryAt, Linked, Sound, Ensured, Placed, Missing, IsTable, IsBlock, Read, NextPa, Grew;
    SoundPlaced(t, s.mem, s.shape, s.cursor);
    var s1 := AfterEnsure(t, s, table, s.shape[Table(table)].level, i);
    Kinds(Read(s.mem, table, i));
    if !Missing(Read(s.mem, table, i)) {
      EnsuredAsItWas(t, s, table, i);
    } else if s.cursor >= 8 {
      EnsuredNothing(t, s, table, i);
    } else {
      TakesNext(t, s, table, i);
      EnsuredByLink(t, s, table, i);
      LinkSound(t, s.mem, s.shape, s.cursor, table, i);
    }
    EnsuredGrows(t, s, s1, table, i, EnsureResult(t, s.mem, s.cursor, table, i));
  }

  lemma TakesNext(t: Tables, s: State, table: bv64, i: bv64)
    requires Sound(t, s.mem, s.shape, s.cursor) && s.cursor < 8
    requires Table(table) in s.shape && s.shape[Table(table)].level < 3 && Missing(Read(s.mem, table, i))
    ensures CanTake(t, s.mem, s.shape, s.cursor, table, i)
  {
    hide Sound, Missing, Read;
  }

  lemma EnsuredGrows(t: Tables, s: State, s1: State, table: bv64, i: bv64, r: Result<bv64>)
    requires |t.runtime| == 8 && Table(table) in s.shape && Ensured(t, s, s1, table, i, r)
    requires s1.shape == s.shape || (s.cursor < 8 && s1.shape.Keys == s.shape.Keys + {Table(t.runtime[s.cursor])})
    ensures Grew(t, s, s1)
  {
    hide EntryAt, Translate, Missing, IsTable, IsBlock, Read, EnsureResult;
  }

  // ---- One page mapped at run time --------------------------------------------------------

  predicate OffGranule(a: bv64) { a & 0x3FFF != 0 }
  predicate KernelVa(va: bv64) { va >> 48 == 0xFFFF }

  /** How a mapping request ends, decided on the tables it finds. */
  function IoremapResult(t: Tables, m: Mem, cursor: nat, va: bv64, pa: bv64): Result<()> {
    if OffGranule(va) || OffGranule(pa) then Err(Misaligned)
    else if !KernelVa(va) then Err(NotKernelVa)
    else if BlockOnPath(m, t.l0, va) then Err(BlockInPath)
    else if cursor + TablesMissing(m, t.l0, va) <= 8 || TablesMissing(m, t.l0, va) == 0 then Ok(())
    else Err(OutOfTables)
  }

  /** The entries a mapping at va needs, as they are now. */
  function L0Entry(m: Mem, l0: bv64, va: bv64): bv64 { Read(m, l0, Index(0, va)) }
  function L1EntryOf(m: Mem, l0: bv64, va: bv64): bv64 { Read(m, NextPa(L0Entry(m, l0, va)), Index(1, va)) }
  function L2EntryOf(m: Mem, l0: bv64, va: bv64): bv64 { Read(m, NextPa(L1EntryOf(m, l0, va)), Index(2, va)) }

  predicate BlockOnPath(m: Mem, l0: bv64, va: bv64) {
    || !IsTable(L0Entry(m, l0, va))
    || IsBlock(L1EntryOf(m, l0, va))
    || (IsTable(L1EntryOf(m, l0, va)) && IsBlock(L2EntryOf(m, l0, va)))
  }

  function TablesMissing(m: Mem, l0: bv64, va: bv64): nat {
    if Missing(L1EntryOf(m, l0, va)) then 2 else if Missing(L2EntryOf(m, l0, va)) then 1 else 0
  }

  /** Success changes the translation of the page of va and of no other address; an error changes
      none, whatever tables it has linked in by then. Only tables of the kernel's tree are written,
      and only tables of the pool join it. */
  ghost predicate Mapped(t: Tables, s: State, s1: State, va: bv64, pa: bv64, a: Attr, r: Result<()>) {
    && r == IoremapResult(t, s.mem, s.cursor, va, pa)
    && Grew(t, s, s1)
    && (r.Ok? ==> s1.cursor == s.cursor + TablesMissing(s.mem, t.l0, va))
    && forall v :: Translate(s1.mem, t.l0, v) ==
         if r.Ok? && SamePage(v, va) then To(Output(3, pa, v), LeafBits(a)) else Translate(s.mem, t.l0, v)
  }

  lemma {:induction false} PageSound(t: Tables, s: State, l3: bv64, va: bv64, pa: bv64, a: Attr)
    requires Sound(t, s.mem, s.shape, s.cursor) && TableFor(s.mem, t.l0, 0, 3, va) == Some(l3)
    requires PageAligned(pa) && !a.UserRw? && !a.UserRx?
    ensures var m1 := WithPage(s.mem, l3, Index(3, va), pa, a);
      && Sound(t, m1, s.shape, s.cursor)
      && forall v :: Translate(m1, t.l0, v) ==
           if SamePage(v, va) then To(Output(3, pa, v), LeafBits(a)) else Translate(s.mem, t.l0, v)
  {
    hide Tree, SafeTree, Inside, Placed, Translate, SamePage, Output, LeafBits, PageDesc, Read, WithPage, TableFor, Index, PageAligned;
    var m1 := WithPage(s.mem, l3, Index(3, va), pa, a);
    forall v ensures Translate(m1, t.l0, v) ==
        if SamePage(v, va) then To(Output(3, pa, v), LeafBits(a)) else Translate(s.mem, t.l0, v) {
      PageMapsOnePage(s.mem, t.l0, s.shape, l3, va, pa, a, v);
    }
    PageMapsOnePage(s.mem, t.l0, s.shape, l3, va, pa, a, va);
    PageKeepsTree(s.mem, t.l0, s.shape, l3, Index(3, va), pa, a);
    PageKeepsSafe(s.mem, s.shape, l3, Index(3, va), pa, a, true);
    forall u, j | u != l3 ensures Read(m1, u, j) == Read(s.mem, u, j) { PageRead(s.mem, l3, Index(3, va), pa, a, u, j); }
  }

  lemma PageRead(m: Mem, table: bv64, i: bv64, pa: bv64, a: Attr, u: bv64, j: bv64)
    ensures u != table || j != i ==> Read(WithPage(m, table, i, pa, a), u, j) == Read(m, u, j)
  {
    hide PageDesc, Put, Read;
    PutRead(m, table, i, PageDesc(pa, a), u, j);
  }

  /** Is the request one that reaches the tables, and does the trunk lead on? */
  predicate Reaches(t: Tables, m: Mem, va: bv64, pa: bv64) {
    !OffGranule(va) && !OffGranule(pa) && KernelVa(va) && IsTable(L0Entry(m, t.l0, va))
  }

  lemma ZeroIsMissing()
    ensures Missing(0) && !IsTable(0) && !IsBlock(0)
  {
  }

  /** The first of the two tables cannot be had. */
  lemma FirstFails(t: Tables, s: State, s1: State, va: bv64, pa: bv64, a: Attr, e: IoremapError)
    requires |t.runtime| == 8 && Reaches(t, s.mem, va, pa)
    requires var l1 := NextPa(L0Entry(s.mem, t.l0, va));
      Table(l1) in s.shape && Ensured(t, s, s1, l1, Index(1, va), Err(e))
    requires Grew(t, s, s1)
    ensures Mapped(t, s, s1, va, pa, a, Err(e))
  {
    hide EntryAt, Translate, Missing, IsTable, IsBlock, Read, NextPa, Index, OffGranule, KernelVa, SamePage, Output, LeafBits,
      Grew;
    Kinds(L1EntryOf(s.mem, t.l0, va));
  }

  /** The second cannot: the first one may have been linked in, which no translation shows. */
  lemma SecondFails(t: Tables, s: State, s1: State, s2: State, va: bv64, pa: bv64, a: Attr, l2: bv64, e: IoremapError)
    requires |t.runtime| == 8 && Reaches(t, s.mem, va, pa)
    requires var l1 := NextPa(L0Entry(s.mem, t.l0, va));
      Table(l1) in s.shape && Ensured(t, s, s1, l1, Index(1, va), Ok(l2))
    requires Table(l2) in s1.shape && Ensured(t, s1, s2, l2, Index(2, va), Err(e))
    requires Grew(t, s, s2)
    ensures Mapped(t, s, s2, va, pa, a, Err(e))
  {
    hide EntryAt, Translate, Missing, IsTable, IsBlock, Read, NextPa, Index, OffGranule, KernelVa, SamePage, Output, LeafBits,
      Grew;
    Kinds(L1EntryOf(s.mem, t.l0, va));
    Kinds(Read(s1.mem, l2, Index(2, va)));
    ZeroIsMissing();
  }

  lemma BothFound(t: Tables, s: State, s1: State, s2: State, va: bv64, pa: bv64, l2: bv64, l3: bv64)
    requires |t.runtime| == 8 && Reaches(t, s.mem, va, pa)
    requires var l1 := NextPa(L0Entry(s.mem, t.l0, va));
      Table(l1) in s.shape && Ensured(t, s, s1, l1, Index(1, va), Ok(l2))
    requires Table(l2) in s1.shape && Ensured(t, s1, s2, l2, Index(2, va), Ok(l3))
    ensures IoremapResult(t, s.mem, s.cursor, va, pa) == Ok(())
    ensures s2.cursor == s.cursor + TablesMissing(s.mem, t.l0, va)
  {
    hide EntryAt, Translate, Missing, IsTable, IsBlock, Read, NextPa, Index, OffGranule, KernelVa, L0Entry, BlockOnPath,
      TablesMissing;
    NothingBlocked(t, s, s1, s2, va, l2, l3);
    EnoughTables(t, s, s1, s2, va, l2, l3);
  }

  lemma NothingBlocked(t: Tables, s: State, s1: State, s2: State, va: bv64, l2: bv64, l3: bv64)
    requires |t.runtime| == 8 && IsTable(L0Entry(s.mem, t.l0, va))
    requires var l1 := NextPa(L0Entry(s.mem, t.l0, va));
      Table(l1) in s.shape && Ensured(t, s, s1, l1, Index(1, va), Ok(l2))
    requires Table(l2) in s1.shape && Ensured(t, s1, s2, l2, Index(2, va), Ok(l3))
    ensures !BlockOnPath(s.mem, t.l0, va)
  {
    hide EntryAt, Translate, Missing, IsTable, IsBlock, Read, NextPa, Index, L0Entry;
    Kinds(L1EntryOf(s.mem, t.l0, va));
    Kinds(Read(s1.mem, l2, Index(2, va)));
  }

  lemma EnoughTables(t: Tables, s: State, s1: State, s2: State, va: bv64, l2: bv64, l3: bv64)
    requires |t.runtime| == 8
    requires var l1 := NextPa(L0Entry(s.mem, t.l0, va));
      Table(l1) in s.shape && Ensured(t, s, s1, l1, Index(1, va), Ok(l2))
    requires Table(l2) in s1.shape && Ensured(t, s1, s2, l2, Index(2, va), Ok(l3))
    ensures s2.cursor == s.cursor + TablesMissing(s.mem, t.l0, va)
    ensures s2.cursor <= 8 || TablesMissing(s.mem, t.l0, va) == 0
  {
    hide EntryAt, Translate, Missing, IsTable, IsBlock, Read, NextPa, Index, L0Entry;
    Kinds(L1EntryOf(s.mem, t.l0, va));
    Kinds(Read(s1.mem, l2, Index(2, va)));
    ZeroIsMissing();
  }

  /** With both tables in place the walk for va reads the last of them. */
  lemma {:induction false} PathComplete(t: Tables, s: State, s1: State, s2: State, va: bv64, pa: bv64, l2: bv64, l3: bv64)
    requires |t.runtime| == 8 && Reaches(t, s.mem, va, pa)
    requires Tree(s.mem, t.l0, s.shape)
    requires var l1 := NextPa(L0Entry(s.mem, t.l0, va));
      Table(l1) in s.shape && s.shape[Table(l1)].level == 1 && EntryAt(s.mem, 0, t.l0, Index(0, va)) == Next(l1)
      && Ensured(t, s, s1, l1, Index(1, va), Ok(l2))
    requires Table(l2) in s1.shape && s1.shape[Table(l2)].level == 2 && Ensured(t, s1, s2, l2, Index(2, va), Ok(l3))
    ensures TableFor(s2.mem, t.l0, 0, 3, va) == Some(l3)
  {
    hide Decode, Translate, Missing, IsTable, IsBlock, Read, NextPa, Index, OffGranule, KernelVa, Walk;
    RootInTree(s.mem, t.l0, s.shape);
    var l1 := NextPa(L0Entry(s.mem, t.l0, va));
    assert t.l0 != l1 && t.l0 != l2 && l1 != l2;
    assert EntryAt(s2.mem, 0, t.l0, Index(0, va)) == Next(l1);
    assert EntryAt(s2.mem, 1, l1, Index(1, va)) == Next(l2);
    assert EntryAt(s2.mem, 2, l2, Index(2, va)) == Next(l3);
  }

  lemma RefusedAsItWas(t: Tables, s: State, va: bv64, pa: bv64, a: Attr, e: IoremapError)
    requires IoremapResult(t, s.mem, s.cursor, va, pa) == Err(e)
    ensures Mapped(t, s, s, va, pa, a, Err(e))
  {
    hide Translate, IoremapResult, TablesMissing, SamePage, Output, LeafBits, Read;
  }

  lemma Refusals(t: Tables, m: Mem, cursor: nat, va: bv64, pa: bv64)
    ensures OffGranule(va) || OffGranule(pa) ==> IoremapResult(t, m, cursor, va, pa) == Err(Misaligned)
    ensures !OffGranule(va) && !OffGranule(pa) && !KernelVa(va) ==> IoremapResult(t, m, cursor, va, pa) == Err(NotKernelVa)
    ensures !OffGranule(va) && !OffGranule(pa) && KernelVa(va) && !IsTable(L0Entry(m, t.l0, va)) ==>
      IoremapResult(t, m, cursor, va, pa) == Err(BlockInPath)
  {
    hide IsTable, IsBlock, L0Entry, L1EntryOf, L2EntryOf, TablesMissing, OffGranule, KernelVa;
  }

  lemma TrunkEntry(t: Tables, s: State, va: bv64)
    requires Sound(t, s.mem, s.shape, s.cursor) && IsTable(L0Entry(s.mem, t.l0, va))
    ensures var l1 := NextPa(L0Entry(s.mem, t.l0, va));
      && Tree(s.mem, t.l0, s.shape) && Table(l1) in s.shape && s.shape[Table(l1)].level == 1
      && EntryAt(s.mem, 0, t.l0, Index(0, va)) == Next(l1)
  {
    hide Tree, SafeTree, Inside, Placed, Blank, EntryAt, IsTable, Read, NextPa, Index;
    RootInTree(s.mem, t.l0, s.shape);
    TableEntry(s.mem, t.l0, s.shape, t.l0, Index(0, va));
  }

  lemma NextLevel(t: Tables, s: State, s1: State, table: bv64, i: bv64, n: bv64)
    requires |t.runtime| == 8 && Table(table) in s.shape && Ensured(t, s, s1, table, i, Ok(n))
    ensures Table(n) in s1.shape && s1.shape[Table(n)].level == s.shape[Table(table)].level + 1
    ensures s.cursor <= s1.cursor <= s.cursor + 1
  {
    hide Translate, Missing, IsTable, IsBlock, Read, EntryAt;
  }

  lemma AlignedPage(pa: bv64)
    requires !OffGranule(pa) && pa & VA_MASK == pa
    ensures PageAligned(pa)
  {
  }

  lemma AllMapped(t: Tables, s: State, s1: State, s2: State, s3: State, va: bv64, pa: bv64, a: Attr)
    requires IoremapResult(t, s.mem, s.cursor, va, pa) == Ok(())
    requires s3.cursor == s2.cursor == s.cursor + TablesMissing(s.mem, t.l0, va)
    requires forall v :: Translate(s1.mem, t.l0, v) == Translate(s.mem, t.l0, v)
    requires forall v :: Translate(s2.mem, t.l0, v) == Translate(s1.mem, t.l0, v)
    requires forall v ::
      Translate(s3.mem, t.l0, v) == if SamePage(v, va) then To(Output(3, pa, v), LeafBits(a)) else Translate(s2.mem, t.l0, v)
    requires Grew(t, s, s3)
    ensures Mapped(t, s, s3, va, pa, a, Ok(()))
  {
    hide Grew, Translate, IoremapResult, TablesMissing, SamePage, Output, LeafBits;
  }

  lemma SameTranslations(t: Tables, s: State, s1: State, table: bv64, i: bv64, r: Result<bv64>)
    requires |t.runtime| == 8 && Table(table) in s.shape && Ensured(t, s, s1, table, i, r)
    ensures forall v :: Translate(s1.mem, t.l0, v) == Translate(s.mem, t.l0, v)
  {
    hide Translate, Missing, IsTable, IsBlock, Read, EntryAt;
  }

  /** The state a mapping request leaves behind. */
  ghost function AfterIoremap(t: Tables, s: State, va: bv64, pa: bv64, a: Attr): State
    requires |t.runtime| == 8
  {
    if !Reaches(t, s.mem, va, pa) then s
    else
      var l1 := NextPa(L0Entry(s.mem, t.l0, va));
      var s1 := AfterEnsure(t, s, l1, 1, Index(1, va));
      match EnsureResult(t, s.mem, s.cursor, l1, Index(1, va))
      case Err(_) => s1
      case Ok(l2) =>
        var s2 := AfterEnsure(t, s1, l2, 2, Index(2, va));
        match EnsureResult(t, s1.mem, s1.cursor, l2, Index(2, va))
        case Err(_) => s2
        case Ok(l3) => s2.(mem := WithPage(s2.mem, l3, Index(3, va), pa, a))
  }

  /** What it means, from every sound state. */
  lemma IoremapMeaning(t: Tables, s: State, va: bv64, pa: bv64, a: Attr)
    requires Sound(t, s.mem, s.shape, s.cursor) && pa & VA_MASK == pa && !a.UserRw? && !a.UserRx?
    ensures |t.runtime| == 8
    ensures var s1 := AfterIoremap(t, s, va, pa, a);
      && Sound(t, s1.mem, s1.shape, s1.cursor)
      && Mapped(t, s, s1, va, pa, a, IoremapResult(t, s.mem, s.cursor, va, pa))
  {
    hide EntryAt, Sound, Ensured, Placed, Missing, IsTable, IsBlock, Read, NextPa, Index, OffGranule, KernelVa, Mapped,
      WithPage, PageDesc, PageAligned, L0Entry, AfterEnsure, EnsureResult, IoremapResult, Grew;
    SoundPlaced(t, s.mem, s.shape, s.cursor);
    Refusals(t, s.mem, s.cursor, va, pa);
    if !Reaches(t, s.mem, va, pa) {
      RefusedAsItWas(t, s, va, pa, a, IoremapResult(t, s.mem, s.cursor, va, pa).error);
    } else {
      var l1 := NextPa(L0Entry(s.mem, t.l0, va));
      TrunkEntry(t, s, va);
      EnsureMeaning(t, s, l1, Index(1, va));
      var s1 := AfterEnsure(t, s, l1, 1, Index(1, va));
      var r1 := EnsureResult(t, s.mem, s.cursor, l1, Index(1, va));
      if r1.Err? {
        FirstFails(t, s, s1, va, pa, a, r1.error);
        MappedResult(t, s, s1, va, pa, a, Err(r1.error));
      } else {
        NextLevel(t, s, s1, l1, Index(1, va), r1.value);
        EnsureMeaning(t, s1, r1.value, Index(2, va));
        var s2 := AfterEnsure(t, s1, r1.value, 2, Index(2, va));
        var r2 := EnsureResult(t, s1.mem, s1.cursor, r1.value, Index(2, va));
        GrewTwice(t, s, s1, s2);
        if r2.Err? {
          SecondFails(t, s, s1, s2, va, pa, a, r1.value, r2.error);
          MappedResult(t, s, s2, va, pa, a, Err(r2.error));
        } else {
          PageWritten(t, s, s1, s2, va, pa, a, r1.value, r2.value);
        }
      }
    }
  }

  lemma MappedResult(t: Tables, s: State, s1: State, va: bv64, pa: bv64, a: Attr, r: Result<()>)
    requires Mapped(t, s, s1, va, pa, a, r)
    ensures r == IoremapResult(t, s.mem, s.cursor, va, pa)
  {
    hide Grew, Translate, IoremapResult, TablesMissing, SamePage, Output, LeafBits;
  }

  /** Both tables are there: the page descriptor goes into the second. */
  lemma PageWritten(t: Tables, s: State, s1: State, s2: State, va: bv64, pa: bv64, a: Attr, l2: bv64, l3: bv64)
    requires |t.runtime| == 8 && Reaches(t, s.mem, va, pa) && pa & VA_MASK == pa && !a.UserRw? && !a.UserRx?
    requires Sound(t, s.mem, s.shape, s.cursor) && Sound(t, s2.mem, s2.shape, s2.cursor) && Grew(t, s, s2)
    requires var l1 := NextPa(L0Entry(s.mem, t.l0, va));
      Table(l1) in s.shape && Ensured(t, s, s1, l1, Index(1, va), Ok(l2))
    requires Table(l2) in s1.shape && s1.shape[Table(l2)].level == 2 && Ensured(t, s1, s2, l2, Index(2, va), Ok(l3))
    ensures var s3 := s2.(mem := WithPage(s2.mem, l3, Index(3, va), pa, a));
      && Sound(t, s3.mem, s3.shape, s3.cursor)
      && Mapped(t, s, s3, va, pa, a, IoremapResult(t, s.mem, s.cursor, va, pa))
  {
    hide EntryAt, Sound, Ensured, Missing, IsTable, IsBlock, Read, NextPa, Index, OffGranule, KernelVa, Mapped, WithPage,
      PageDesc, PageAligned, L0Entry, IoremapResult, Grew, Translate, TableFor, SamePage, Output, LeafBits;
    var s3 := s2.(mem := WithPage(s2.mem, l3, Index(3, va), pa, a));
    var l1 := NextPa(L0Entry(s.mem, t.l0, va));
    TrunkEntry(t, s, va);
    BothFound(t, s, s1, s2, va, pa, l2, l3);
    PathComplete(t, s, s1, s2, va, pa, l2, l3);
    AlignedPage(pa);
    PageSound(t, s2, l3, va, pa, a);
    PageGrows(t, s2, l3, va, pa, a);
    GrewTwice(t, s, s2, s3);
    SameTranslations(t, s, s1, l1, Index(1, va), Ok(l2));
    SameTranslations(t, s1, s2, l2, Index(2, va), Ok(l3));
    AllMapped(t, s, s1, s2, s3, va, pa, a);
  }

  lemma {:induction false} PageGrows(t: Tables, s: State, l3: bv64, va: bv64, pa: bv64, a: Attr)
    requires Sound(t, s.mem, s.shape, s.cursor) && TableFor(s.mem, t.l0, 0, 3, va) == Some(l3) && PageAligned(pa)
    ensures Grew(t, s, s.(mem := WithPage(s.mem, l3, Index(3, va), pa, a)))
  {
    hide Tree, SafeTree, Inside, Placed, Blank, Translate, PageDesc, Read, WithPage, TableFor, Index, PageAligned, LeafBits,
      Output, SamePage;
    PageMapsOnePage(s.mem, t.l0, s.shape, l3, va, pa, a, va);
    forall u, j | u != l3 ensures Read(WithPage(s.mem, l3, Index(3, va), pa, a), u, j) == Read(s.mem, u, j) {
      PageRead(s.mem, l3, Index(3, va), pa, a, u, j);
    }
  }

  /** In a sound state no address of the kernel's half is writable and executable at either level,
      or open to EL0, and every mapping has its access flag set. */
  lemma KernelIsSafe(t: Tables, s: State, va: bv64)
    requires Sound(t, s.mem, s.shape, s.cursor)
    ensures Translate(s.mem, t.l0, va).To? ==> SafeLeaf(Translate(s.mem, t.l0, va).attrs, true)
  {
    hide Tree, SafeTree, Inside, Placed, Blank, Walk, SafeLeaf;
    RootInTree(s.mem, t.l0, s.shape);
    TranslationsAreSafe(s.mem, t.l0, s.shape, true, t.l0, 0, va);
  }

  // ---- The narrated walk ---------------------------------------------------------------------

  function ReportOf(r: Translation): Report {
    match r
    case Fault(level) => Stops(level)
    case Maps(pa, _) => Arrives(pa)
  }

  predicate InRange(t: Tables, pa: bv64) { Le(t.start, pa) && Lt(pa, t.end) }

  /** The trunk an address belongs to, as the code masks it. */
  function RootFor(va: bv64, ttbr0: bv64, ttbr1: bv64): bv64 {
    (if va >> 48 == 0xFFFF then ttbr1 else ttbr0) & 0x0000_FFFF_FFFF_FFFE
  }

  predicate Canonical(va: bv64) { va >> 48 == 0xFFFF || va >> 48 == 0 }

  lemma Halves(va: bv64, ttbr0: bv64, ttbr1: bv64)
    ensures va >> 48 == 0xFFFF ==> Canonical(va) && RootFor(va, ttbr0, ttbr1) == ttbr1 & 0x0000_FFFF_FFFF_FFFE
    ensures va >> 48 == 0 ==> Canonical(va) && RootFor(va, ttbr0, ttbr1) == ttbr0 & 0x0000_FFFF_FFFF_FFFE
    ensures va >> 48 != 0xFFFF && va >> 48 != 0 <==> !Canonical(va)
  {
  }

  lemma TablesInRange(t: Tables, s: State, u: bv64)
    requires Sound(t, s.mem, s.shape, s.cursor) && (Table(u) in s.shape || u == t.emptyRoot)
    ensures InRange(t, u)
  {
    hide Lt, Le, Tree, SafeTree, Blank, PageAligned;
    if u == t.emptyRoot {
      var all := Fixed(t) + t.runtime;
      assert all[5] == t.emptyRoot;
    } else {
      assert Table(u) in s.shape;
    }
  }

  lemma SoundRoot(t: Tables, s: State)
    requires Sound(t, s.mem, s.shape, s.cursor)
    ensures Table(t.l0) in s.shape && s.shape[Table(t.l0)].level == 0
    ensures t.l0 != t.emptyRoot
  {
    hide Placed, SafeTree, Inside, Tree;
    RootInTree(s.mem, t.l0, s.shape);
  }

  lemma EmptyRootTurn(t: Tables, s: State, i: bv64)
    requires Sound(t, s.mem, s.shape, s.cursor)
    ensures InRange(t, t.emptyRoot) && Missing(Read(s.mem, t.emptyRoot, i))
  {
    hide Placed, Tree, SafeTree, Inside, PageAligned, Missing, InRange;
    TablesInRange(t, s, t.emptyRoot);
    ZeroIsMissing();
  }

  function PageAddress(desc: bv64, va: bv64): bv64 { (desc & PA_MASK) | (va & PAGE_OFFSET) }
  function BlockAddress(desc: bv64, va: bv64): bv64 { (desc & BLOCK_MASK) | (va & BLOCK_OFFSET) }

  lemma Outputs(desc: bv64, va: bv64)
    ensures Output(2, desc & BLOCK_MASK, va) == BlockAddress(desc, va)
    ensures Output(3, desc & PA_MASK, va) == PageAddress(desc, va)
  {
    hide Output;
    OutputAtTwo(desc & BLOCK_MASK, va);
    OutputIsOr(desc & PA_MASK, va);
  }

  lemma OutputAtTwo(a: bv64, va: bv64)
    ensures Output(2, a, va) == a | (va & 0x1FF_FFFF)
  {
  }

  /** How the walk goes on, by the kind of the descriptor it reads. */
  lemma LeafTurn(m: Mem, table: bv64, level: int, va: bv64)
    requires 0 <= level <= 3
    ensures var desc, w := Read(m, table, Index(level, va)), Walk(m, table, level, va);
      && (Missing(desc) || (IsBlock(desc) && level != 2) ==> w == Fault(level))
      && (IsBlock(desc) && level == 2 ==> ReportOf(w) == Arrives(BlockAddress(desc, va)))
      && (IsTable(desc) && level == 3 ==> ReportOf(w) == Arrives(PageAddress(desc, va)))
      && (IsTable(desc) && level < 3 ==> w == Walk(m, NextPa(desc), level + 1, va))
  {
    hide Decode, Index, Read, IsTable, IsBlock, Missing, Walk, Output, PageAddress, BlockAddress;
    var desc := Read(m, table, Index(level, va));
    DecodeKinds(level, desc);
    WalkStep(m, table, level, va);
    Outputs(desc, va);
  }

  lemma TableTurn(t: Tables, s: State, table: bv64, level: int, va: bv64)
    requires Sound(t, s.mem, s.shape, s.cursor)
    requires Table(table) in s.shape && s.shape[Table(table)].level == level
    ensures 0 <= level <= 3 && InRange(t, table)
    ensures var desc := Read(s.mem, table, Index(level, va));
      IsTable(desc) && level < 3 ==>
        Table(NextPa(desc)) in s.shape && s.shape[Table(NextPa(desc))].level == level + 1
  {
    hide Tree, SafeTree, Blank, Inside, Placed, Index, Read, IsTable, NextPa, EntryAt, InRange;
    TreeLevels(s.mem, t.l0, s.shape, table);
    TablesInRange(t, s, table);
    if IsTable(Read(s.mem, table, Index(level, va))) && level < 3 {
      TableEntry(s.mem, t.l0, s.shape, table, Index(level, va));
    }
  }
}
