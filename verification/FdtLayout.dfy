/** The flattened format, byte by byte, said without the functions that flatten and read: where each
    token and name stands, what each header word is, and which bytes are text. */
module FdtLayout {
  import opened Words
  import opened FdtFormat
  import opened FdtReader
  import opened FdtRoundTrip
  import opened FdtSearch
  import opened FdtBlob

  // ---- Words ------------------------------------------------------------------------------

  /** The four bytes at off as a number, most significant first. */
  function Word(s: Bytes, off: nat): int
    requires off + 4 <= |s|
  {
    var (b0: int, b1: int, b2: int, b3: int) := (s[off], s[off + 1], s[off + 2], s[off + 3]);
    b0 * 0x100_0000 + b1 * 0x1_0000 + b2 * 0x100 + b3
  }

  lemma WordIsRead(s: Bytes, off: nat)
    requires off + 4 <= |s|
    ensures FromU32(s[off..off + 4]) == Word(s, off)
  {
    var b := s[off..off + 4];
    assert b[0] == s[off] && b[1] == s[off + 1] && b[2] == s[off + 2] && b[3] == s[off + 3];
  }

  lemma WordIsWritten(s: Bytes, off: nat, w: u32)
    requires off + 4 <= |s| && s[off..off + 4] == U32(w)
    ensures Word(s, off) == w
  {
    hide U32, FromU32, Word;
    U32RoundTrip(w);
    WordIsRead(s, off);
  }

  lemma LongIsRead(s: Bytes, off: nat)
    requires off + 8 <= |s|
    ensures FromU64(s[off..off + 8]) == Word(s, off) * 0x1_0000_0000 + Word(s, off + 4)
  {
    hide FromU32, Word;
    WordIsRead(s, off);
    WordIsRead(s, off + 4);
    assert s[off..off + 8][..4] == s[off..off + 4] && s[off..off + 8][4..] == s[off + 4..off + 8];
  }

  /** As many cells as whole words, each the number at its place. */
  lemma {:induction false} CellsAre(data: Bytes, pos: nat)
    ensures pos <= |data| ==> |CellsFrom(data, pos)| == (|data| - pos) / 4
    ensures forall k: nat :: k < |CellsFrom(data, pos)| ==>
      pos + 4 * k + 4 <= |data| && CellsFrom(data, pos)[k] == Word(data, pos + 4 * k)
    decreases |data| - pos
  {
    hide FromU32, Word;
    if pos + 4 <= |data| {
      CellsAre(data, pos + 4);
      WordIsRead(data, pos);
    }
  }

  // ---- The structure block ------------------------------------------------------------------

  /** An item of the structure block: a 32-bit word, or text or data followed by padding. */
  datatype Item = Cell(w: u32) | Data(bytes: Bytes)

  function NopCells(n: nat): seq<Item> { if n == 0 then [] else [Cell(4)] + NopCells(n - 1) }

  function PropItems(p: Prop): seq<Item>
    requires |p.value| < 0x1_0000_0000
  {
    NopCells(p.nops) + [Cell(3), Cell(|p.value|), Cell(p.nameoff), Data(p.value)]
  }

  function PropsItems(ps: seq<Prop>): seq<Item>
    requires forall p :: p in ps ==> |p.value| < 0x1_0000_0000
  {
    if ps == [] then [] else PropItems(ps[0]) + PropsItems(ps[1..])
  }

  /** The items of a tree: begin token and name, properties, children, end token. */
  function Items(t: Tree): seq<Item>
    requires Storable(t)
    decreases t, 0
  {
    [Cell(1), Data(t.name + [0])] + PropsItems(t.props) + KidsItems(t.kids) + NopCells(t.nopsAtEnd) + [Cell(2)]
  }

  function KidsItems(ts: seq<Tree>): seq<Item>
    requires forall t :: t in ts ==> Storable(t)
    decreases ts, 1
  {
    if ts == [] then [] else NopCells(ts[0].nops) + Items(ts[0]) + KidsItems(ts[1..])
  }

  /** The items stand one after the other from off to the end, each at a multiple of four, with zero
      bytes, and fewer than four of them, between data and the next item. */
  ghost predicate LaidOut(s: Bytes, off: nat, fs: seq<Item>)
    decreases |fs|
  {
    && off % 4 == 0 && off <= |s|
    && if fs == [] then off == |s|
       else match fs[0]
         case Cell(w) => off + 4 <= |s| && Word(s, off) == w && LaidOut(s, off + 4, fs[1..])
         case Data(bytes) => exists next: nat :: DataTo(s, off, bytes, next) && LaidOut(s, next, fs[1..])
  }

  predicate DataTo(s: Bytes, off: nat, bytes: Bytes, next: nat) {
    var end := off + |bytes|;
    end <= next < end + 4 && next <= |s| && s[off..end] == bytes && forall k :: end <= k < next ==> s[k] == 0
  }

  // What stands in s at off.

  predicate Stands(s: Bytes, off: nat, bytes: Bytes) { off + |bytes| <= |s| && s[off..off + |bytes|] == bytes }

  lemma StandsSplit(s: Bytes, off: nat, a: Bytes, b: Bytes)
    requires Stands(s, off, a + b)
    ensures Stands(s, off, a) && Stands(s, off + |a|, b)
  {
    var w := s[off..off + |a + b|];
    assert w[..|a|] == s[off..off + |a|] && w[|a|..] == s[off + |a|..off + |a| + |b|];
    assert (a + b)[..|a|] == a && (a + b)[|a|..] == b;
  }

  lemma {:induction false} CellLaid(s: Bytes, off: nat, w: u32, rest: seq<Item>)
    requires off % 4 == 0 && Stands(s, off, U32(w)) && LaidOut(s, off + 4, rest)
    ensures LaidOut(s, off, [Cell(w)] + rest)
  {
    hide U32, Word;
    WordIsWritten(s, off, w);
    assert ([Cell(w)] + rest)[1..] == rest;
  }

  lemma {:induction false} DataLaid(s: Bytes, off: nat, bytes: Bytes, rest: seq<Item>)
    requires off % 4 == 0 && Stands(s, off, Pad(bytes)) && LaidOut(s, off + |Pad(bytes)|, rest)
    ensures LaidOut(s, off, [Data(bytes)] + rest)
  {
    hide LaidOut;
    DataStands(s, off, bytes);
    assert ([Data(bytes)] + rest)[1..] == rest;
    assert DataTo(s, off, bytes, off + |Pad(bytes)|) && LaidOut(s, off + |Pad(bytes)|, rest);
    DataStep(s, off, bytes, rest, off + |Pad(bytes)|);
  }

  lemma {:induction false} DataStep(s: Bytes, off: nat, bytes: Bytes, rest: seq<Item>, next: nat)
    requires off % 4 == 0 && off <= |s| && DataTo(s, off, bytes, next) && LaidOut(s, next, rest)
    ensures LaidOut(s, off, [Data(bytes)] + rest)
  {
    hide DataTo;
    assert ([Data(bytes)] + rest)[1..] == rest;
  }

  lemma DataStands(s: Bytes, off: nat, bytes: Bytes)
    requires Stands(s, off, Pad(bytes))
    ensures DataTo(s, off, bytes, off + |Pad(bytes)|)
  {
    hide Padded;
    var pad := Zeros(Padded(|bytes|) - |bytes|);
    StandsSplit(s, off, bytes, pad);
    forall k | off + |bytes| <= k < off + |Pad(bytes)| ensures s[k] == 0 {
      assert s[k] == s[off + |bytes|..off + |bytes| + |pad|][k - off - |bytes|];
    }
  }

  lemma {:induction false} NopsLaid(s: Bytes, off: nat, n: nat, rest: seq<Item>)
    requires off % 4 == 0 && Stands(s, off, Nops(n)) && LaidOut(s, off + 4 * n, rest)
    ensures LaidOut(s, off, NopCells(n) + rest)
    decreases n
  {
    hide U32, LaidOut, Stands;
    if n == 0 {
      assert NopCells(0) + rest == rest;
    } else {
      StandsSplit(s, off, U32(FDT_NOP), Nops(n - 1));
      NopsLaid(s, off + 4, n - 1, rest);
      CellLaid(s, off, FDT_NOP, NopCells(n - 1) + rest);
      assert NopCells(n) + rest == [Cell(4)] + (NopCells(n - 1) + rest);
    }
  }

  lemma {:induction false} PropLaid(s: Bytes, off: nat, p: Prop, rest: seq<Item>)
    requires |p.value| < 0x1_0000_0000 && off % 4 == 0 && Stands(s, off, FlatProp(p)) && LaidOut(s, off + |FlatProp(p)|, rest)
    ensures LaidOut(s, off, PropItems(p) + rest)
  {
    hide U32, LaidOut, Stands, Nops, Pad;
    var (w0, w1, w2, v) := (U32(FDT_PROP), U32(|p.value|), U32(p.nameoff), Pad(p.value));
    assert FlatProp(p) == Nops(p.nops) + (w0 + (w1 + (w2 + v)));
    NopsLength(p.nops);
    StandsSplit(s, off, Nops(p.nops), w0 + (w1 + (w2 + v)));
    var o := off + 4 * p.nops;
    StandsSplit(s, o, w0, w1 + (w2 + v));
    StandsSplit(s, o + 4, w1, w2 + v);
    StandsSplit(s, o + 8, w2, v);
    DataLaid(s, o + 12, p.value, rest);
    CellLaid(s, o + 8, p.nameoff, [Data(p.value)] + rest);
    CellLaid(s, o + 4, |p.value|, [Cell(p.nameoff)] + ([Data(p.value)] + rest));
    CellLaid(s, o, FDT_PROP, [Cell(|p.value|)] + ([Cell(p.nameoff)] + ([Data(p.value)] + rest)));
    var own := [Cell(3), Cell(|p.value|), Cell(p.nameoff), Data(p.value)];
    assert own + rest == [Cell(3)] + ([Cell(|p.value|)] + ([Cell(p.nameoff)] + ([Data(p.value)] + rest)));
    NopsLaid(s, off, p.nops, own + rest);
    assert PropItems(p) + rest == NopCells(p.nops) + (own + rest);
  }

  lemma {:induction false} PropsLaid(s: Bytes, off: nat, ps: seq<Prop>, rest: seq<Item>)
    requires forall p :: p in ps ==> |p.value| < 0x1_0000_0000
    requires off % 4 == 0 && Stands(s, off, FlatProps(ps)) && LaidOut(s, off + |FlatProps(ps)|, rest)
    ensures LaidOut(s, off, PropsItems(ps) + rest)
    decreases |ps|
  {
    hide LaidOut, Stands, FlatProp, PropItems;
    if ps == [] {
      assert PropsItems(ps) + rest == rest;
    } else {
      var p := FlatProp(ps[0]);
      StandsSplit(s, off, p, FlatProps(ps[1..]));
      PropAligned(ps[0]);
      PropsLaid(s, off + |p|, ps[1..], rest);
      PropLaid(s, off, ps[0], PropsItems(ps[1..]) + rest);
      assert PropsItems(ps) + rest == PropItems(ps[0]) + (PropsItems(ps[1..]) + rest);
    }
  }

  lemma PropAligned(p: Prop)
    requires |p.value| < 0x1_0000_0000
    ensures |FlatProp(p)| % 4 == 0
  {
    hide U32, Padded, Nops;
    NopsLength(p.nops);
  }

  lemma {:induction false} PropsAligned(ps: seq<Prop>)
    requires forall p :: p in ps ==> |p.value| < 0x1_0000_0000
    ensures |FlatProps(ps)| % 4 == 0
    decreases |ps|
  {
    hide FlatProp;
    if ps != [] {
      PropAligned(ps[0]);
      PropsAligned(ps[1..]);
    }
  }

  lemma {:induction false} TreeAligned(t: Tree)
    requires Storable(t)
    ensures |Flat(t)| % 4 == 0
    decreases t, 0
  {
    hide U32, Nops, FlatKids, FlatProps, Padded;
    PropsAligned(t.props);
    KidsAligned(t.kids);
    NopsLength(t.nopsAtEnd);
  }

  lemma {:induction false} KidsAligned(ts: seq<Tree>)
    requires forall t :: t in ts ==> Storable(t)
    ensures |FlatKids(ts)| % 4 == 0
    decreases ts, 1
  {
    hide Flat, Nops;
    if ts != [] {
      TreeAligned(ts[0]);
      KidsAligned(ts[1..]);
      NopsLength(ts[0].nops);
    }
  }

  /** Where the parts of a flattened tree stand. */
  lemma {:induction false} TreeParts(s: Bytes, off: nat, t: Tree)
    requires Storable(t) && off % 4 == 0 && Stands(s, off, Flat(t))
    ensures
      var o1 := off + 4 + |Pad(t.name + [0])|;
      var o2 := o1 + |FlatProps(t.props)|;
      var o3 := o2 + |FlatKids(t.kids)|;
      var o4 := o3 + 4 * t.nopsAtEnd;
      && Stands(s, off, U32(1)) && Stands(s, off + 4, Pad(t.name + [0])) && Stands(s, o1, FlatProps(t.props))
      && Stands(s, o2, FlatKids(t.kids)) && Stands(s, o3, Nops(t.nopsAtEnd)) && Stands(s, o4, U32(2))
      && o4 + 4 == off + |Flat(t)|
  {
    hide U32, Nops, FlatKids, FlatProps, Pad, Stands;
    var (w, n, ps, ks, ns, e) :=
      (U32(FDT_BEGIN_NODE), Pad(t.name + [0]), FlatProps(t.props), FlatKids(t.kids), Nops(t.nopsAtEnd), U32(FDT_END_NODE));
    assert Flat(t) == w + (n + (ps + (ks + (ns + e))));
    NopsLength(t.nopsAtEnd);
    StandsSplit(s, off, w, n + (ps + (ks + (ns + e))));
    StandsSplit(s, off + 4, n, ps + (ks + (ns + e)));
    StandsSplit(s, off + 4 + |n|, ps, ks + (ns + e));
    StandsSplit(s, off + 4 + |n| + |ps|, ks, ns + e);
    StandsSplit(s, off + 4 + |n| + |ps| + |ks|, ns, e);
  }

  lemma PadAligned(bytes: Bytes)
    ensures |Pad(bytes)| % 4 == 0
  {
    hide Padded;
  }

  lemma {:induction false} TreeLaid(s: Bytes, off: nat, t: Tree, rest: seq<Item>)
    requires Storable(t) && off % 4 == 0 && Stands(s, off, Flat(t)) && LaidOut(s, off + |Flat(t)|, rest)
    ensures LaidOut(s, off, Items(t) + rest)
    decreases t, 0
  {
    hide U32, Nops, Flat, FlatKids, FlatProps, Pad, LaidOut, Stands, PropsItems, KidsItems, NopCells, Storable, Items;
    StorableParts(t);
    TreeParts(s, off, t);
    PadAligned(t.name + [0]);
    PropsAligned(t.props);
    KidsAligned(t.kids);
    var o1 := off + 4 + |Pad(t.name + [0])|;
    var o2 := o1 + |FlatProps(t.props)|;
    var o3 := o2 + |FlatKids(t.kids)|;
    CellLaid(s, o3 + 4 * t.nopsAtEnd, 2, rest);
    var f4 := [Cell(2)] + rest;
    NopsLaid(s, o3, t.nopsAtEnd, f4);
    var f3 := NopCells(t.nopsAtEnd) + f4;
    KidsLaid(s, o2, t.kids, f3);
    var f2 := KidsItems(t.kids) + f3;
    PropsLaid(s, o1, t.props, f2);
    var f1 := PropsItems(t.props) + f2;
    DataLaid(s, off + 4, t.name + [0], f1);
    CellLaid(s, off, 1, [Data(t.name + [0])] + f1);
    ItemsOf(t, rest);
  }

  lemma {:induction false} StorableParts(t: Tree)
    requires Storable(t)
    ensures forall p :: p in t.props ==> |p.value| < 0x1_0000_0000
    ensures forall k :: k in t.kids ==> Storable(k)
  {
  }

  lemma {:induction false} ItemsOf(t: Tree, rest: seq<Item>)
    requires Storable(t)
    ensures Items(t) + rest ==
      [Cell(1)] + ([Data(t.name + [0])] + (PropsItems(t.props) + (KidsItems(t.kids) + (NopCells(t.nopsAtEnd) + ([Cell(2)] + rest)))))
  {
    hide PropsItems, KidsItems, NopCells;
  }

  lemma {:induction false} KidsLaid(s: Bytes, off: nat, ts: seq<Tree>, rest: seq<Item>)
    requires forall t :: t in ts ==> Storable(t)
    requires off % 4 == 0 && Stands(s, off, FlatKids(ts)) && LaidOut(s, off + |FlatKids(ts)|, rest)
    ensures LaidOut(s, off, KidsItems(ts) + rest)
    decreases ts, 1
  {
    hide LaidOut, Stands, Flat, FlatKids, KidsItems, Nops, Items, NopCells, Storable;
    KidsParts(s, off, ts, rest);
    if ts != [] {
      var o := off + 4 * ts[0].nops;
      TreeAligned(ts[0]);
      var more := KidsItems(ts[1..]) + rest;
      KidsLaid(s, o + |Flat(ts[0])|, ts[1..], rest);
      TreeLaid(s, o, ts[0], more);
      NopsLaid(s, off, ts[0].nops, Items(ts[0]) + more);
    }
  }

  /** Where the parts of flattened children stand, and what their items are. */
  lemma {:induction false} KidsParts(s: Bytes, off: nat, ts: seq<Tree>, rest: seq<Item>)
    requires (forall t :: t in ts ==> Storable(t)) && Stands(s, off, FlatKids(ts))
    ensures ts == [] ==> FlatKids(ts) == [] && KidsItems(ts) + rest == rest
    ensures ts != [] ==>
      var o := off + 4 * ts[0].nops;
      && Stands(s, off, Nops(ts[0].nops)) && Stands(s, o, Flat(ts[0])) && Stands(s, o + |Flat(ts[0])|, FlatKids(ts[1..]))
      && off + |FlatKids(ts)| == o + |Flat(ts[0])| + |FlatKids(ts[1..])|
      && KidsItems(ts) + rest == NopCells(ts[0].nops) + (Items(ts[0]) + (KidsItems(ts[1..]) + rest))
  {
    hide Stands, Flat, Nops, Items, NopCells, Storable;
    if ts == [] {
      assert KidsItems(ts) + rest == rest;
    } else {
      var (ns, t, more) := (Nops(ts[0].nops), Flat(ts[0]), FlatKids(ts[1..]));
      Regroup(ns, t, more);
      NopsLength(ts[0].nops);
      StandsSplit(s, off, ns, t + more);
      StandsSplit(s, off + |ns|, t, more);
      Regroup(NopCells(ts[0].nops), Items(ts[0]), KidsItems(ts[1..]));
      Regroup(NopCells(ts[0].nops), Items(ts[0]) + KidsItems(ts[1..]), rest);
      Regroup(Items(ts[0]), KidsItems(ts[1..]), rest);
    }
  }

  lemma Regroup<T>(a: seq<T>, b: seq<T>, c: seq<T>)
    ensures (a + b) + c == a + (b + c)
  {
  }

  /** The structure block of every tree is its items, each at a multiple of four, and the end token. */
  lemma {:induction false} StructureLaidOut(t: Tree)
    requires Storable(t)
    ensures LaidOut(Structure(t), 0, Items(t) + [Cell(9)])
  {
    hide U32, Flat, LaidOut, Stands, Items;
    var s := Structure(t);
    assert Stands(s, 0, Flat(t) + U32(FDT_END)) by { WholeStands(s); }
    StandsSplit(s, 0, Flat(t), U32(FDT_END));
    TreeAligned(t);
    NothingLeft(s);
    CellLaid(s, |Flat(t)|, FDT_END, []);
    assert [Cell(9)] + [] == [Cell(9)];
    TreeLaid(s, 0, t, [Cell(9)]);
  }

  lemma WholeStands(s: Bytes)
    ensures Stands(s, 0, s)
  {
  }

  lemma {:induction false} NothingLeft(s: Bytes)
    ensures |s| % 4 == 0 ==> LaidOut(s, |s|, [])
  {
  }

  // ---- The header -----------------------------------------------------------------------------

  /** What `new` reads where, and exactly when it accepts. */
  lemma HeaderRead(blob: Bytes)
    requires Readable(blob)
    ensures New(blob).Some? <==>
      && Word(blob, 0) == 0xD00D_FEED && 40 <= Word(blob, 4) && 40 <= Word(blob, 8)
      && Word(blob, 8) + Word(blob, 36) <= Word(blob, 4) && Word(blob, 12) + Word(blob, 32) <= Word(blob, 4)
    ensures New(blob).Some? ==>
      New(blob).value == Fdtr(blob, Header(Word(blob, 4), Word(blob, 8), Word(blob, 12), Word(blob, 16), Word(blob, 20),
                                           Word(blob, 24), Word(blob, 28), Word(blob, 32), Word(blob, 36)))
  {
    hide FromU32, Word;
    forall k: nat | k < 10 ensures Field(blob, k) == Word(blob, 4 * k) { WordIsRead(blob, 4 * k); }
    assert Field(blob, 0) == Word(blob, 4 * 0) && Field(blob, 1) == Word(blob, 4 * 1) && Field(blob, 2) == Word(blob, 4 * 2)
      && Field(blob, 3) == Word(blob, 4 * 3) && Field(blob, 4) == Word(blob, 4 * 4) && Field(blob, 5) == Word(blob, 4 * 5)
      && Field(blob, 6) == Word(blob, 4 * 6) && Field(blob, 7) == Word(blob, 4 * 7) && Field(blob, 8) == Word(blob, 4 * 8)
      && Field(blob, 9) == Word(blob, 4 * 9);
  }

  /** A written blob says where its parts are: the structure block, laid out as above from a multiple of
      eight on, and the strings. */
  lemma BlobSaysWhere(d: Source)
    requires WellFormed(d)
    ensures var b := Blob(d);
      && |b| >= 40 && Word(b, 0) == 0xD00D_FEED && Word(b, 4) == |b| && Word(b, 16) == 40 && Word(b, 28) == d.bootCpuid
      && Word(b, 20) == 17 && Word(b, 24) == 16 && Word(b, 8) % 8 == 0
      && 40 <= Word(b, 8) && Word(b, 8) + Word(b, 36) == Word(b, 12) && Word(b, 12) + Word(b, 32) == |b|
      && b[Word(b, 12)..] == d.strings
      && LaidOut(b[Word(b, 8)..Word(b, 12)], 0, Items(d.tree) + [Cell(9)])
  {
    hide WordsOf, ReserveMap, Structure, StringsHold, Storable, Blob, Word, LaidOut, Items, U32, HeaderWords, WellFormed, Size;
    WordsWritten(d);
    PartsWritten(d);
    EightAligned(d.reserves);
    StructureLaidOut(d.tree);
  }

  lemma PartsWritten(d: Source)
    requires WellFormed(d)
    ensures Storable(d.tree)
    ensures var b, st := Blob(d), 40 + |ReserveMap(d.reserves)|;
      && |b| == Size(d) == st + |Structure(d.tree)| + |d.strings|
      && b[st..st + |Structure(d.tree)|] == Structure(d.tree) && b[st + |Structure(d.tree)|..] == d.strings
  {
    hide WordsOf, ReserveMap, Structure, StringsHold, Storable, Blob, U32, HeaderWords;
    BlobLayout(d);
  }

  lemma {:induction false} EightAligned(rs: seq<Reserve>)
    ensures (40 + |ReserveMap(rs)|) % 8 == 0
  {
    hide ReserveMap;
    ReserveMapLength(rs);
  }

  lemma WordsWritten(d: Source)
    requires WellFormed(d)
    ensures var b, st := Blob(d), 40 + |ReserveMap(d.reserves)|;
      && |b| >= 40 && Word(b, 0) == 0xD00D_FEED && Word(b, 4) == Size(d) && Word(b, 8) == st
      && Word(b, 12) == st + |Structure(d.tree)| && Word(b, 16) == 40 && Word(b, 20) == 17 && Word(b, 24) == 16
      && Word(b, 28) == d.bootCpuid && Word(b, 32) == |d.strings| && Word(b, 36) == |Structure(d.tree)|
  {
    hide WordsOf, ReserveMap, Structure, StringsHold, Storable, Blob, Word, U32, Name;
    FieldIsWord(d, 0);
    FieldIsWord(d, 1);
    FieldIsWord(d, 2);
    FieldIsWord(d, 3);
    FieldIsWord(d, 4);
    FieldIsWord(d, 5);
    FieldIsWord(d, 6);
    FieldIsWord(d, 7);
    FieldIsWord(d, 8);
    FieldIsWord(d, 9);
  }

  lemma FieldIsWord(d: Source, k: nat)
    requires WellFormed(d) && k < 10
    ensures |Blob(d)| >= 40 && Word(Blob(d), 4 * k) == HeaderWords(d)[k]
  {
    hide WordsOf, ReserveMap, Structure, StringsHold, Storable, Blob, Word, FromU32, HeaderWords;
    FieldsRead(d, k);
    WordIsRead(Blob(d), 4 * k);
  }

  // ---- Text -------------------------------------------------------------------------------------

  /** A Unicode scalar value, and its encoding. */
  predicate Scalar(c: int) { 0 <= c < 0xD800 || 0xE000 <= c < 0x11_0000 }

  function Encoded(c: int): (s: Bytes)
    requires Scalar(c)
    ensures 1 <= |s| <= 4
  {
    if c < 0x80 then [c]
    else if c < 0x800 then [0xC0 + c / 0x40, 0x80 + c % 0x40]
    else if c < 0x1_0000 then [0xE0 + c / 0x1000, 0x80 + c / 0x40 % 0x40, 0x80 + c % 0x40]
    else [0xF0 + c / 0x4_0000, 0x80 + c / 0x1000 % 0x40, 0x80 + c / 0x40 % 0x40, 0x80 + c % 0x40]
  }

  function Text(cs: seq<int>): Bytes
    requires forall c :: c in cs ==> Scalar(c)
  {
    if cs == [] then [] else Encoded(cs[0]) + Text(cs[1..])
  }

  lemma {:induction false} StartsWithScalar(c: int, rest: Bytes)
    requires Scalar(c)
    ensures Utf8(Encoded(c) + rest) <==> Utf8(rest)
  {
    var e := Encoded(c);
    assert (e + rest)[|e|..] == rest;
    if 0x800 <= c < 0x1_0000 {
      assert c / 0x1000 == 0 ==> c / 0x40 % 0x40 >= 0x20;
      assert c / 0x1000 == 13 ==> c / 0x40 % 0x40 < 0x20;
    }
  }

  lemma TwoBytes(b0: int, b1: int)
    requires 0xC2 <= b0 <= 0xDF && 0x80 <= b1 <= 0xBF
    ensures var c := (b0 - 0xC0) * 0x40 + (b1 - 0x80); Scalar(c) && Encoded(c) == [b0, b1]
  {
  }

  lemma ThreeBytes(b0: int, b1: int, b2: int)
    requires 0xE0 <= b0 <= 0xEF && 0x80 <= b1 <= 0xBF && 0x80 <= b2 <= 0xBF
    requires (b0 == 0xE0 ==> b1 >= 0xA0) && (b0 == 0xED ==> b1 <= 0x9F)
    ensures var c := (b0 - 0xE0) * 0x1000 + (b1 - 0x80) * 0x40 + (b2 - 0x80); Scalar(c) && Encoded(c) == [b0, b1, b2]
  {
    var c := (b0 - 0xE0) * 0x1000 + (b1 - 0x80) * 0x40 + (b2 - 0x80);
    Digits(b0 - 0xE0, b1 - 0x80, b2 - 0x80);
    assert 0x800 <= c < 0x1_0000;
  }

  /** Six-bit digits taken apart. */
  lemma Digits(x: nat, y: nat, z: nat)
    requires y < 0x40 && z < 0x40
    ensures var c := x * 0x1000 + y * 0x40 + z; c / 0x1000 == x && c / 0x40 % 0x40 == y && c % 0x40 == z
  {
    var c := x * 0x1000 + y * 0x40 + z;
    assert c / 0x40 == x * 0x40 + y;
  }

  lemma FourBytes(b0: int, b1: int, b2: int, b3: int)
    requires 0xF0 <= b0 <= 0xF4 && 0x80 <= b1 <= 0xBF && 0x80 <= b2 <= 0xBF && 0x80 <= b3 <= 0xBF
    requires (b0 == 0xF0 ==> b1 >= 0x90) && (b0 == 0xF4 ==> b1 <= 0x8F)
    ensures var c := (b0 - 0xF0) * 0x4_0000 + (b1 - 0x80) * 0x1000 + (b2 - 0x80) * 0x40 + (b3 - 0x80);
      Scalar(c) && Encoded(c) == [b0, b1, b2, b3]
  {
    var x, c := (b0 - 0xF0) * 0x40 + (b1 - 0x80), (b0 - 0xF0) * 0x4_0000 + (b1 - 0x80) * 0x1000 + (b2 - 0x80) * 0x40 + (b3 - 0x80);
    Digits(x, b2 - 0x80, b3 - 0x80);
    assert c == x * 0x1000 + (b2 - 0x80) * 0x40 + (b3 - 0x80);
    assert c / 0x1000 == x && c / 0x4_0000 == b0 - 0xF0;
    assert 0x1_0000 <= c < 0x11_0000;
  }

  lemma {:induction false} FirstScalar(s: Bytes) returns (c: int)
    requires s != [] && Utf8(s)
    ensures Scalar(c) && |Encoded(c)| <= |s| && s[..|Encoded(c)|] == Encoded(c)
  {
    hide Encoded, Scalar;
    var b0: int := s[0];
    if b0 < 0x80 {
      c := b0;
      assert Scalar(c) && Encoded(c) == s[..1] by { OneByte(b0); }
    } else if b0 <= 0xDF {
      var b1: int := s[1];
      c := (b0 - 0xC0) * 0x40 + (b1 - 0x80);
      TwoBytes(b0, b1);
      assert s[..2] == [b0, b1];
    } else if b0 <= 0xEF {
      var (b1: int, b2: int) := (s[1], s[2]);
      c := (b0 - 0xE0) * 0x1000 + (b1 - 0x80) * 0x40 + (b2 - 0x80);
      ThreeBytes(b0, b1, b2);
      assert s[..3] == [b0, b1, b2];
    } else {
      var (b1: int, b2: int, b3: int) := (s[1], s[2], s[3]);
      c := (b0 - 0xF0) * 0x4_0000 + (b1 - 0x80) * 0x1000 + (b2 - 0x80) * 0x40 + (b3 - 0x80);
      FourBytes(b0, b1, b2, b3);
      assert s[..4] == [b0, b1, b2, b3];
    }
  }

  lemma OneByte(b0: int)
    requires 0 <= b0 < 0x80
    ensures Scalar(b0) && Encoded(b0) == [b0]
  {
  }

  /** The reader takes for text exactly the encodings of sequences of scalar values. */
  lemma {:induction false} Utf8Exactly(s: Bytes)
    ensures Utf8(s) <==> exists cs: seq<int> :: (forall c :: c in cs ==> Scalar(c)) && Text(cs) == s
  {
    hide Utf8, Encoded;
    if Utf8(s) {
      var cs := Scalars(s);
    }
    forall cs: seq<int> | (forall c :: c in cs ==> Scalar(c)) && Text(cs) == s ensures Utf8(s) { TextIsUtf8(cs); }
  }

  lemma {:induction false} Scalars(s: Bytes) returns (cs: seq<int>)
    requires Utf8(s)
    ensures (forall c :: c in cs ==> Scalar(c)) && Text(cs) == s
    decreases |s|
  {
    hide Utf8, Encoded;
    if s == [] {
      cs := [];
    } else {
      var c := FirstScalar(s);
      var n := |Encoded(c)|;
      assert s == Encoded(c) + s[n..];
      StartsWithScalar(c, s[n..]);
      var rest := Scalars(s[n..]);
      cs := [c] + rest;
      assert cs[1..] == rest;
    }
  }

  lemma {:induction false} TextIsUtf8(cs: seq<int>)
    requires forall c :: c in cs ==> Scalar(c)
    ensures Utf8(Text(cs))
    decreases |cs|
  {
    hide Encoded;
    if cs != [] {
      TextIsUtf8(cs[1..]);
      StartsWithScalar(cs[0], Text(cs[1..]));
    }
  }

  // ---- Exactly what the reads find ------------------------------------------------------------------

  /** A string is found exactly if it stands there, is text without a NUL, and its NUL lies below the limit. */
  lemma CstrExactly(blob: Bytes, off: nat, limit: nat, s: Bytes)
    requires limit <= |blob|
    ensures ReadCstr(blob, off, limit) == Some(s) <==>
      off + |s| < limit && blob[off..off + |s|] == s && blob[off + |s|] == 0 && Name(s)
  {
    hide Utf8;
    if ReadCstr(blob, off, limit) == Some(s) {
      assert forall k :: 0 <= k < |s| ==> s[k] == blob[off + k];
    } else if off + |s| < limit && blob[off..off + |s|] == s && blob[off + |s|] == 0 && Name(s) {
      CstrStandsAt(blob, off, limit, s);
    }
  }

  /** A property name is looked up inside the string block alone; words, names and values anywhere below
      totalsize. */
  lemma ReadsExactly(f: Fdtr, off: nat, nameoff: u32, len: nat, s: Bytes)
    requires Accepted(f)
    ensures StringAt(f, nameoff) == Some(s) <==>
      && nameoff as int + |s| < f.header.sizeStrings as int
      && var o: nat := f.header.offStrings + nameoff; f.blob[o..o + |s|] == s && f.blob[o + |s|] == 0 && Name(s)
    ensures StructCstr(f, off) == Some(s) <==>
      && off + |s| < f.header.totalsize as int
      && f.blob[off..off + |s|] == s && f.blob[off + |s|] == 0 && Name(s)
    ensures StructU32(f, off) == if off + 4 <= f.header.totalsize as int then Some(Word(f.blob, off)) else None
    ensures StructBytes(f, off, len) == if off + len <= f.header.totalsize as int then Some(f.blob[off..off + len]) else None
  {
    hide ReadCstr, FromU32, Word;
    CstrExactly(f.blob, f.header.offStrings + nameoff, StringsEnd(f), s);
    CstrExactly(f.blob, off, f.header.totalsize, s);
    if off + 4 <= f.header.totalsize as int { WordIsRead(f.blob, off); }
  }

  /** The value of a name is that of the first property that has it. */
  lemma {:induction false} FirstValueExactly(ps: seq<Prop>, name: Bytes)
    ensures FirstValue(ps, name) == None <==> forall k :: 0 <= k < |ps| ==> ps[k].name != name
    ensures forall k :: 0 <= k < |ps| && ps[k].name == name && (forall j :: 0 <= j < k ==> ps[j].name != name) ==>
      FirstValue(ps, name) == Some(ps[k].value)
  {
    if ps != [] && ps[0].name != name {
      FirstValueExactly(ps[1..], name);
      forall k | 0 <= k < |ps| && ps[k].name == name && (forall j :: 0 <= j < k ==> ps[j].name != name)
        ensures FirstValue(ps, name) == Some(ps[k].value)
      {
        assert ps[1..][k - 1] == ps[k];
        forall j | 0 <= j < k - 1 ensures ps[1..][j].name != name { assert ps[1..][j] == ps[j + 1]; }
      }
      assert forall k :: 1 <= k < |ps| ==> ps[k] == ps[1..][k - 1];
    }
  }

  // ---- What the searches compare ----------------------------------------------------------------

  lemma SearchedNames()
    ensures |COMPATIBLE| == |"compatible"| && forall i :: 0 <= i < 10 ==> COMPATIBLE[i] == "compatible"[i] as int
    ensures SLASH == '/' as int && AT == '@' as int
  {
  }

  /** A substring is what stands between some prefix and some suffix. */
  lemma ContainsExactly(s: Bytes, sub: Bytes)
    ensures Contains(s, sub) <==> exists a: Bytes, b: Bytes :: s == a + sub + b
  {
    if Contains(s, sub) {
      var k :| 0 <= k <= |s| && StandsAt(s, sub, k);
      assert s == s[..k] + sub + s[k + |sub|..];
    }
    forall a: Bytes, b: Bytes | s == a + sub + b ensures Contains(s, sub) {
      assert StandsAt(s, sub, |a|);
    }
  }

  /** Of a list of NUL-terminated strings `compatible` is the first; without any NUL it is all of it. */
  lemma {:induction false} FirstStringIs(text: Bytes, rest: Bytes)
    requires Name(text)
    ensures FirstString(text + [0] + rest) == text && FirstString(text) == text
  {
    hide Utf8;
    BeforeJoined(text, [0] + rest, 0);
    assert text + [0] + rest == text + ([0] + rest);
    BeforeWhole(text, 0);
  }
}
