/** A whole devicetree blob, header to string block, and what the reader makes of it. */
module FdtBlob {
  import opened Words
  import opened FdtFormat
  import opened FdtReader
  import opened FdtRoundTrip
  import opened FdtSearch

  function WordsOf(ws: seq<u32>): Bytes {
    if ws == [] then [] else U32(ws[0]) + WordsOf(ws[1..])
  }

  lemma {:induction false} WordsOfAt(ws: seq<u32>, k: nat)
    requires k < |ws|
    ensures |WordsOf(ws)| == 4 * |ws| && WordsOf(ws)[4 * k..4 * k + 4] == U32(ws[k])
    decreases |ws|
  {
    hide U32;
    if k > 0 {
      WordsOfAt(ws[1..], k - 1);
      assert WordsOf(ws)[4 * k..4 * k + 4] == WordsOf(ws[1..])[4 * (k - 1)..4 * (k - 1) + 4];
    } else if |ws| > 1 {
      WordsOfAt(ws[1..], 0);
    }
  }

  /** Cells read back as written, whatever ragged bytes follow. */
  lemma {:induction false} CellsReadBack(before: Bytes, ws: seq<u32>, ragged: Bytes)
    requires |ragged| < 4
    ensures CellsFrom(before + WordsOf(ws) + ragged, |before|) == ws
    decreases |ws|
  {
    hide U32, FromU32;
    var data := before + WordsOf(ws) + ragged;
    if ws != [] {
      U32RoundTrip(ws[0]);
      assert data == (before + U32(ws[0])) + WordsOf(ws[1..]) + ragged;
      assert data[|before|..|before| + 4] == U32(ws[0]);
      CellsReadBack(before + U32(ws[0]), ws[1..], ragged);
    }
  }

  function ReserveMap(rs: seq<Reserve>): Bytes {
    if rs == [] then U64(0) + U64(0) else U64(rs[0].address) + U64(rs[0].size) + ReserveMap(rs[1..])
  }

  lemma {:induction false} ReserveMapLength(rs: seq<Reserve>)
    ensures |ReserveMap(rs)| == 16 * |rs| + 16
  {
    if rs != [] { ReserveMapLength(rs[1..]); }
  }

  /** The structure block: one tree and the end token. */
  function Structure(t: Tree): Bytes
    requires Storable(t)
  {
    Flat(t) + U32(FDT_END)
  }

  datatype Source = Source(tree: Tree, strings: Bytes, reserves: seq<Reserve>, bootCpuid: u32)

  function Size(d: Source): nat
    requires Storable(d.tree)
  {
    HEADER_SIZE + |ReserveMap(d.reserves)| + |Structure(d.tree)| + |d.strings|
  }

  /** Every property name stands in the string block where the tree says, NUL and all. Names may
      share bytes. */
  predicate StringsHold(strings: Bytes, t: Tree) {
    && (forall p :: p in t.props ==>
          p.nameoff as int + |p.name| < |strings|
          && strings[p.nameoff..p.nameoff as int + |p.name|] == p.name && strings[p.nameoff as int + |p.name|] == 0)
    && forall k :: k in t.kids ==> StringsHold(strings, k)
  }

  predicate WellFormed(d: Source) {
    && Storable(d.tree) && StringsHold(d.strings, d.tree) && Size(d) < 0x1_0000_0000
    && forall r :: r in d.reserves ==> r.address != 0 || r.size != 0
  }

  function HeaderWords(d: Source): seq<u32>
    requires Storable(d.tree) && Size(d) < 0x1_0000_0000
  {
    var st: nat := HEADER_SIZE + |ReserveMap(d.reserves)|;
    [FDT_MAGIC, Size(d), st, st + |Structure(d.tree)|, HEADER_SIZE, 17, 16, d.bootCpuid, |d.strings|, |Structure(d.tree)|]
  }

  /** The blob: header, reserve map, structure block, string block. */
  function Blob(d: Source): Bytes
    requires Storable(d.tree) && Size(d) < 0x1_0000_0000
  {
    WordsOf(HeaderWords(d)) + (ReserveMap(d.reserves) + (Structure(d.tree) + d.strings))
  }

  lemma BlobLayout(d: Source)
    requires WellFormed(d)
    ensures var b, st := Blob(d), HEADER_SIZE + |ReserveMap(d.reserves)|;
      && |b| == Size(d) && b[..HEADER_SIZE] == WordsOf(HeaderWords(d))
      && b[HEADER_SIZE..st] == ReserveMap(d.reserves)
      && b[st..st + |Structure(d.tree)|] == Structure(d.tree)
      && b[st + |Structure(d.tree)|..] == d.strings
  {
    hide WordsOf, ReserveMap, Structure, StringsHold, Storable;
    WordsOfAt(HeaderWords(d), 0);
    var h, r, s := WordsOf(HeaderWords(d)), ReserveMap(d.reserves), Structure(d.tree);
    Cut(h, r + (s + d.strings), 0);
    Cut(h + r, s + d.strings, |h|);
    Cut(h + r + s, d.strings, |h + r|);
    assert h + (r + (s + d.strings)) == h + r + (s + d.strings) == h + r + s + d.strings;
  }

  /** The end of the first part, from wherever it is looked at, and the second part. */
  lemma Cut(a: Bytes, b: Bytes, from: nat)
    requires from <= |a|
    ensures (a + b)[from..|a|] == a[from..] && (a + b)[|a|..] == b
  {
  }

  lemma FieldsRead(d: Source, k: nat)
    requires WellFormed(d) && k < 10
    ensures HEADER_SIZE <= |Blob(d)| && Field(Blob(d), k) == HeaderWords(d)[k]
  {
    hide WordsOf, ReserveMap, Structure, StringsHold, Storable, U32, FromU32, Blob;
    BlobLayout(d);
    var b, ws := Blob(d), HeaderWords(d);
    WordsOfAt(ws, k);
    Prefix(b, HEADER_SIZE, 4 * k, 4 * k + 4);
    U32RoundTrip(ws[k]);
  }

  lemma Prefix(b: Bytes, n: nat, i: nat, j: nat)
    requires i <= j <= n <= |b|
    ensures b[..n][i..j] == b[i..j]
  {
  }

  function ReaderOf(d: Source): Fdtr
    requires Storable(d.tree) && Size(d) < 0x1_0000_0000
  {
    var ws := HeaderWords(d);
    Fdtr(Blob(d), Header(ws[1], ws[2], ws[3], ws[4], ws[5], ws[6], ws[7], ws[8], ws[9]))
  }

  lemma NewReadsHeader(d: Source)
    requires WellFormed(d)
    ensures Readable(Blob(d)) && New(Blob(d)) == Some(ReaderOf(d)) && Accepted(ReaderOf(d))
  {
    hide WordsOf, ReserveMap, Structure, StringsHold, Storable, Blob, Field;
    BlobLayout(d);
    forall k | 0 <= k < 10 ensures Field(Blob(d), k) == HeaderWords(d)[k] { FieldsRead(d, k); }
    TotalSizeField(Blob(d));
  }

  lemma TotalSizeField(b: Bytes)
    requires HEADER_SIZE <= |b|
    ensures FromU32(b[4..8]) == Field(b, 1)
  {
  }

  /** The string block read back. */
  lemma {:induction false} NamesRead(d: Source, f: Fdtr, t: Tree)
    requires Accepted(f) && f.blob[f.header.offStrings..StringsEnd(f)] == d.strings
    requires Storable(t) && StringsHold(d.strings, t)
    ensures NamesStored(f, t)
    decreases t
  {
    hide Name;
    forall p | p in t.props ensures StringAt(f, p.nameoff) == Some(p.name) {
      var off: nat := f.header.offStrings + p.nameoff;
      var s := d.strings;
      assert f.blob[off..off + |p.name|] == s[p.nameoff..p.nameoff as int + |p.name|];
      assert f.blob[off + |p.name|] == s[p.nameoff as int + |p.name|];
      CstrStandsAt(f.blob, off, StringsEnd(f), p.name);
    }
    forall k | k in t.kids ensures NamesStored(f, k) {
      NamesRead(d, f, k);
    }
  }

  lemma {:induction false} ReservesRead(f: Fdtr, off: nat, rs: seq<Reserve>)
    requires Accepted(f) && At(f, off, ReserveMap(rs))
    requires forall r :: r in rs ==> r.address != 0 || r.size != 0
    ensures ReservesFrom(f, off) == rs
    decreases |rs|
  {
    hide At, U64, FromU64, StructU64;
    if rs == [] {
      AtSplit(f, off, U64(0), U64(0));
      LongAt(f, off, 0);
      LongAt(f, off + 8, 0);
    } else {
      var (a, s, rest) := (U64(rs[0].address), U64(rs[0].size), ReserveMap(rs[1..]));
      assert a + s + rest == a + (s + rest);
      U64RoundTrip(rs[0].address);
      U64RoundTrip(rs[0].size);
      AtSplit(f, off, a, s + rest);
      AtSplit(f, off + 8, s, rest);
      LongAt(f, off, rs[0].address);
      LongAt(f, off + 8, rs[0].size);
      assert rs[0] in rs;
      ReservesRead(f, off + 16, rs[1..]);
    }
  }

  lemma LongAt(f: Fdtr, off: nat, x: u64)
    requires Accepted(f) && At(f, off, U64(x))
    ensures StructU64(f, off) == Some(x) && |U64(x)| == 8
  {
    hide U64, FromU64;
    U64RoundTrip(x);
  }

  /** The tree stands in the blob where the reader looks for its root. */
  lemma BlobHoldsTree(d: Source)
    requires WellFormed(d)
    ensures Readable(Blob(d)) && New(Blob(d)).Some?
    ensures var f := New(Blob(d)).value;
      && f.header.offStruct > 0 && f.header.offRsvmap == HEADER_SIZE
      && Root(f) == Some(f.header.offStruct) && NamesStored(f, d.tree)
      && At(f, f.header.offStruct, Flat(d.tree)) && At(f, HEADER_SIZE, ReserveMap(d.reserves))
  {
    hide WordsOf, ReserveMap, StringsHold, Storable, Blob, Field, Flat, New, NamesStored, U32;
    NewReadsHeader(d);
    BlobLayout(d);
    var f := ReaderOf(d);
    var st: nat := f.header.offStruct;
    assert At(f, st, Structure(d.tree));
    AtSplit(f, st, Flat(d.tree), U32(FDT_END));
    NamesRead(d, f, d.tree);
    BeginsAt(f, st, d.tree);
  }

  /** The round trip: from the blob a tree was flattened into, `new`, `root`, `full_name`, `prop`
      and `children` rebuild exactly that tree, and the reserve map lists exactly its entries. */
  lemma BlobReadsBack(d: Source)
    requires WellFormed(d)
    ensures Readable(Blob(d)) && New(Blob(d)).Some?
    ensures var f := New(Blob(d)).value;
      && Root(f) == Some(f.header.offStruct)
      && Represents(f, f.header.offStruct, d.tree)
      && ReservesFrom(f, f.header.offRsvmap) == d.reserves
  {
    hide Blob, Flat, New, Represents, ReservesFrom, NamesStored, At, Storable, StringsHold;
    BlobHoldsTree(d);
    var f := New(Blob(d)).value;
    ReadsBack(f, f.header.offStruct, d.tree);
    ReservesRead(f, HEADER_SIZE, d.reserves);
  }

  /** And the searches find what they are asked for: a written path the subtree it leads to, a
      substring the first node in pre-order whose compatible string contains it. */
  lemma {:induction false} BlobIsSearched(d: Source, path: seq<Bytes>, sub: Bytes)
    requires WellFormed(d)
    requires forall k :: 0 <= k < |path| ==> path[k] != [] && SLASH !in path[k]
    ensures Readable(Blob(d)) && New(Blob(d)).Some?
    ensures var f := New(Blob(d)).value;
      && (Find(f, Written(path)).Some? <==> Subtree(d.tree, path).Some?)
      && (Subtree(d.tree, path).Some? ==> Represents(f, Find(f, Written(path)).value, Subtree(d.tree, path).value))
      && FindCompatible(f, sub) == FirstFit(Preorder(f.header.offStruct, d.tree), sub)
  {
    hide Blob, Flat, New, Represents, NamesStored, At, Storable, StringsHold, Components, FindFrom, CompatibleIn, Preorder,
      Subtree;
    BlobHoldsTree(d);
    var f := New(Blob(d)).value;
    ComponentsOfWritten(path);
    FindsSubtree(f, f.header.offStruct, d.tree, path);
    SearchesInPreorder(f, f.header.offStruct, d.tree, sub);
  }
}
