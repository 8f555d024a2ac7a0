/** Flattening a tree and reading it back: the reader's offset-chasing loops recover every node's
    name, properties and children, whatever NOP tokens the flattener left in between. */
module FdtRoundTrip {
  import opened Words
  import opened FdtFormat
  import opened FdtReader

  /** These bytes stand at off, inside the structure block. */
  predicate At(f: Fdtr, off: nat, bytes: Bytes)
    requires Accepted(f)
  {
    off + |bytes| <= StructEnd(f) && f.blob[off..off + |bytes|] == bytes
  }

  lemma AtSplit(f: Fdtr, off: nat, a: Bytes, b: Bytes)
    requires Accepted(f)
    ensures At(f, off, a + b) <==> At(f, off, a) && At(f, off + |a|, b)
  {
    if off + |a + b| <= StructEnd(f) {
      var s := f.blob[off..off + |a + b|];
      assert s[..|a|] == f.blob[off..off + |a|];
      assert s[|a|..] == f.blob[off + |a|..off + |a| + |b|];
      assert s == s[..|a|] + s[|a|..];
      assert (a + b)[..|a|] == a && (a + b)[|a|..] == b;
    }
  }

  // ---- Words and names -------------------------------------------------------------------

  lemma WordAt(f: Fdtr, off: nat, x: u32)
    requires Accepted(f) && At(f, off, U32(x))
    ensures StructU32(f, off) == Some(x) && off + 4 <= StructEnd(f)
  {
    hide U32, FromU32;
    U32RoundTrip(x);
  }

  lemma CstrStandsAt(blob: Bytes, off: nat, limit: nat, name: Bytes)
    requires Name(name) && off + |name| < limit <= |blob|
    requires blob[off..off + |name|] == name && blob[off + |name|] == 0
    ensures ReadCstr(blob, off, limit) == Some(name)
  {
    forall k | off <= k < off + |name| ensures blob[k] != 0 {
      assert blob[k] == blob[off..off + |name|][k - off];
    }
    assert FirstNul(blob, off, limit) == off + |name|;
  }

  lemma NameStandsAt(f: Fdtr, off: nat, name: Bytes)
    requires Accepted(f) && Name(name) && At(f, off, Pad(name + [0]))
    ensures StructCstr(f, off) == Some(name)
  {
    var s := Pad(name + [0]);
    assert s[..|name|] == name && s[|name|] == 0;
    assert f.blob[off..off + |s|][..|name|] == f.blob[off..off + |name|];
    assert f.blob[off..off + |s|][|name|] == f.blob[off + |name|];
    CstrStandsAt(f.blob, off, f.header.totalsize, name);
  }

  lemma {:induction false} NopsLength(n: nat)
    ensures |Nops(n)| == 4 * n
  {
    if n > 0 { NopsLength(n - 1); }
  }

  lemma OneNop(f: Fdtr, off: nat, name: Bytes, depth: nat)
    requires Accepted(f) && off > 0 && off + 4 <= StructEnd(f) && StructU32(f, off) == Some(FDT_NOP)
    ensures PropFrom(f, off, name) == PropFrom(f, off + 4, name)
    ensures ChildFrom(f, off) == ChildFrom(f, off + 4)
    ensures NextChild(f, off, depth) == NextChild(f, off + 4, depth)
  {
    hide StructU32;
  }

  /** NOP tokens make no difference to any of the three loops. */
  lemma {:induction false} SkipNops(f: Fdtr, off: nat, n: nat, name: Bytes, depth: nat)
    requires Accepted(f) && off > 0 && At(f, off, Nops(n))
    ensures PropFrom(f, off, name) == PropFrom(f, off + 4 * n, name)
    ensures ChildFrom(f, off) == ChildFrom(f, off + 4 * n)
    ensures NextChild(f, off, depth) == NextChild(f, off + 4 * n, depth)
    decreases n
  {
    hide U32, At, StructU32, PropFrom, ChildFrom, NextChild;
    if n > 0 {
      AtSplit(f, off, U32(FDT_NOP), Nops(n - 1));
      WordAt(f, off, FDT_NOP);
      OneNop(f, off, name, depth);
      SkipNops(f, off + 4, n - 1, name, depth);
    }
  }

  // ---- Properties ----------------------------------------------------------------------------

  /** The value the first property of that name has, if there is one. */
  function FirstValue(ps: seq<Prop>, name: Bytes): Option<Bytes> {
    if ps == [] then None
    else if ps[0].name == name then Some(ps[0].value)
    else FirstValue(ps[1..], name)
  }

  lemma PropertyWords(f: Fdtr, off: nat, p: Prop)
    requires Accepted(f) && |p.value| < 0x1_0000_0000
    requires At(f, off, U32(FDT_PROP) + U32(|p.value|) + U32(p.nameoff) + Pad(p.value))
    ensures StructU32(f, off) == Some(FDT_PROP) && off + 4 <= StructEnd(f)
    ensures StructU32(f, off + 4) == Some(|p.value|) && StructU32(f, off + 8) == Some(p.nameoff)
    ensures StructBytes(f, off + 12, |p.value|) == Some(p.value)
  {
    hide U32, At, StructU32, Zeros;
    var (w0, w1, w2) := (U32(FDT_PROP), U32(|p.value|), U32(p.nameoff));
    assert w0 + w1 + w2 + Pad(p.value) == w0 + (w1 + (w2 + Pad(p.value)));
    AtSplit(f, off, w0, w1 + (w2 + Pad(p.value)));
    AtSplit(f, off + 4, w1, w2 + Pad(p.value));
    AtSplit(f, off + 8, w2, Pad(p.value));
    WordAt(f, off, FDT_PROP);
    WordAt(f, off + 4, |p.value|);
    WordAt(f, off + 8, p.nameoff);
    AtSplit(f, off + 12, p.value, Zeros(Padded(|p.value|) - |p.value|));
    BytesAt(f, off + 12, p.value);
  }

  lemma BytesAt(f: Fdtr, off: nat, bytes: Bytes)
    requires Accepted(f) && At(f, off, bytes)
    ensures StructBytes(f, off, |bytes|) == Some(bytes)
  {
  }

  lemma OneProp(f: Fdtr, off: nat, p: Prop, name: Bytes, depth: nat)
    requires Accepted(f) && off > 0 && |p.value| < 0x1_0000_0000 && At(f, off, FlatProp(p))
    requires StringAt(f, p.nameoff) == Some(p.name)
    ensures var past := off + |FlatProp(p)|;
      && PropFrom(f, off, name) == (if p.name == name then Some(p.value) else PropFrom(f, past, name))
      && ChildFrom(f, off) == ChildFrom(f, past)
      && NextChild(f, off, depth) == NextChild(f, past, depth)
  {
    hide U32, At, StructU32, StringAt, StructBytes, Pad, Padded, Nops;
    var own := U32(FDT_PROP) + U32(|p.value|) + U32(p.nameoff) + Pad(p.value);
    AtSplit(f, off, Nops(p.nops), own);
    NopsLength(p.nops);
    SkipNops(f, off, p.nops, name, depth);
    var o := off + 4 * p.nops;
    PropertyWords(f, o, p);
    assert |own| == 12 + Padded(|p.value|) by { WordsLength(p); }
  }

  lemma WordsLength(p: Prop)
    requires |p.value| < 0x1_0000_0000
    ensures |U32(FDT_PROP) + U32(|p.value|) + U32(p.nameoff) + Pad(p.value)| == 12 + Padded(|p.value|)
  {
  }

  lemma {:induction false} AllProps(f: Fdtr, off: nat, ps: seq<Prop>, name: Bytes, depth: nat)
    requires Accepted(f) && off > 0
    requires forall p :: p in ps ==> |p.value| < 0x1_0000_0000 && StringAt(f, p.nameoff) == Some(p.name)
    requires At(f, off, FlatProps(ps))
    ensures var past := off + |FlatProps(ps)|;
      && PropFrom(f, off, name) ==
           (if FirstValue(ps, name).Some? then FirstValue(ps, name) else PropFrom(f, past, name))
      && ChildFrom(f, off) == ChildFrom(f, past)
      && NextChild(f, off, depth) == NextChild(f, past, depth)
    decreases |ps|
  {
    hide U32, At, StringAt, FlatProp, PropFrom, ChildFrom, NextChild;
    if ps != [] {
      AtSplit(f, off, FlatProp(ps[0]), FlatProps(ps[1..]));
      OneProp(f, off, ps[0], name, depth);
      AllProps(f, off + |FlatProp(ps[0])|, ps[1..], name, depth);
    }
  }

  // ---- Children --------------------------------------------------------------------------------

  /** Every property name is where the tree says it is in the string block, all the way down. */
  predicate NamesStored(f: Fdtr, t: Tree)
    requires Accepted(f)
  {
    && (forall p :: p in t.props ==> StringAt(f, p.nameoff) == Some(p.name))
    && forall k :: k in t.kids ==> NamesStored(f, k)
  }

  lemma {:induction false} BeginsAt(f: Fdtr, off: nat, t: Tree)
    requires Accepted(f) && Storable(t) && At(f, off, Flat(t))
    ensures StructU32(f, off) == Some(FDT_BEGIN_NODE) && off + 4 <= StructEnd(f)
    ensures StructCstr(f, off + 4) == Some(t.name)
    ensures At(f, off + 4 + Padded(|t.name| + 1), Body(t))
    ensures |Flat(t)| == 4 + Padded(|t.name| + 1) + |Body(t)|
  {
    hide At, U32, StructU32, StructCstr, Body;
    var (w, n) := (U32(FDT_BEGIN_NODE), Pad(t.name + [0]));
    assert Flat(t) == w + (n + Body(t));
    AtSplit(f, off, w, n + Body(t));
    AtSplit(f, off + 4, n, Body(t));
    WordAt(f, off, FDT_BEGIN_NODE);
    NameStandsAt(f, off + 4, t.name);
  }

  lemma {:induction false} BodyParts(f: Fdtr, off: nat, t: Tree)
    requires Accepted(f) && Storable(t) && At(f, off, Body(t))
    ensures var (o1, o2, o3) := (off + |FlatProps(t.props)|, off + |FlatProps(t.props)| + |FlatKids(t.kids)|,
                                 off + |FlatProps(t.props)| + |FlatKids(t.kids)| + 4 * t.nopsAtEnd);
      && At(f, off, FlatProps(t.props)) && At(f, o1, FlatKids(t.kids)) && At(f, o2, Nops(t.nopsAtEnd))
      && At(f, o1, FlatKids(t.kids) + (Nops(t.nopsAtEnd) + U32(FDT_END_NODE)))
      && StructU32(f, o3) == Some(FDT_END_NODE) && o3 + 4 <= StructEnd(f) && off + |Body(t)| == o3 + 4
  {
    hide At, U32, StructU32, FlatProps, FlatKids, Nops;
    var (ps, ks, ns) := (FlatProps(t.props), FlatKids(t.kids), Nops(t.nopsAtEnd));
    NopsLength(t.nopsAtEnd);
    AtSplit(f, off, ps, ks + (ns + U32(FDT_END_NODE)));
    AtSplit(f, off + |ps|, ks, ns + U32(FDT_END_NODE));
    AtSplit(f, off + |ps| + |ks|, ns, U32(FDT_END_NODE));
    WordAt(f, off + |ps| + |ks| + 4 * t.nopsAtEnd, FDT_END_NODE);
  }

  /** The iterator at a begin token, and at an end token. */
  lemma NextAtBegin(f: Fdtr, off: nat, t: Tree, depth: nat)
    requires Accepted(f) && off > 0 && Storable(t) && At(f, off, Flat(t))
    ensures var past := off + 4 + Padded(|t.name| + 1);
      && NextChild(f, off, depth) == (if depth == 0 then Step(Some(off), past, 1) else NextChild(f, past, depth + 1))
      && ChildFrom(f, off) == Some(off)
      && At(f, past, Body(t)) && off + |Flat(t)| == past + |Body(t)|
  {
    hide At, StructU32, StructCstr, Flat, Body, Storable, Padded;
    BeginsAt(f, off, t);
  }

  lemma NextAtEnd(f: Fdtr, off: nat, depth: nat)
    requires Accepted(f) && off > 0 && off + 4 <= StructEnd(f) && StructU32(f, off) == Some(FDT_END_NODE)
    ensures NextChild(f, off, depth) == if depth == 0 then Step(None, 0, 0) else NextChild(f, off + 4, depth - 1)
    ensures ChildFrom(f, off) == None && forall name :: PropFrom(f, off, name) == None
  {
    hide StructU32;
  }

  /** Inside a subtree the child iterator passes over everything up to the node's end token. */
  lemma {:induction false} SkipBody(f: Fdtr, off: nat, t: Tree, depth: nat)
    requires Accepted(f) && off > 0 && depth > 0 && Storable(t) && NamesStored(f, t) && At(f, off, Body(t))
    ensures NextChild(f, off, depth) == NextChild(f, off + |Body(t)|, depth - 1)
    decreases t, 0
  {
    hide At, StructU32, StringAt, FlatProps, FlatKids, Nops, Body, NextChild, ChildFrom, PropFrom;
    BodyParts(f, off, t);
    AllProps(f, off, t.props, [], depth);
    var o1 := off + |FlatProps(t.props)|;
    SkipKids(f, o1, t.kids, depth);
    var o2 := o1 + |FlatKids(t.kids)|;
    SkipNops(f, o2, t.nopsAtEnd, [], depth);
    NextAtEnd(f, o2 + 4 * t.nopsAtEnd, depth);
  }

  lemma {:induction false} SkipKids(f: Fdtr, off: nat, ts: seq<Tree>, depth: nat)
    requires Accepted(f) && off > 0 && depth > 0
    requires forall t :: t in ts ==> Storable(t) && NamesStored(f, t)
    requires At(f, off, FlatKids(ts))
    ensures NextChild(f, off, depth) == NextChild(f, off + |FlatKids(ts)|, depth)
    decreases ts, 1
  {
    hide At, Nops, Flat, FlatKids, Body, NamesStored, Storable, NextChild, ChildFrom, PropFrom;
    if ts == [] {
      assert |FlatKids(ts)| == 0 by { NoKids(); }
    } else {
      var t := ts[0];
      KidsSplit(f, off, ts);
      SkipNops(f, off, t.nops, [], depth);
      var o := off + 4 * t.nops;
      NextAtBegin(f, o, t, depth);
      SkipBody(f, o + 4 + Padded(|t.name| + 1), t, depth + 1);
      SkipKids(f, o + |Flat(t)|, ts[1..], depth);
    }
  }

  lemma NoKids()
    ensures FlatKids([]) == []
  {
  }

  lemma {:induction false} KidsSplit(f: Fdtr, off: nat, ts: seq<Tree>)
    requires Accepted(f) && ts != [] && (forall t :: t in ts ==> Storable(t)) && At(f, off, FlatKids(ts))
    ensures var o := off + 4 * ts[0].nops;
      && At(f, off, Nops(ts[0].nops)) && At(f, o, Flat(ts[0])) && At(f, o + |Flat(ts[0])|, FlatKids(ts[1..]))
      && |FlatKids(ts)| == 4 * ts[0].nops + |Flat(ts[0])| + |FlatKids(ts[1..])|
  {
    hide At, Nops, Flat, Storable;
    var (ns, t, rest) := (Nops(ts[0].nops), Flat(ts[0]), FlatKids(ts[1..]));
    NopsLength(ts[0].nops);
    assert FlatKids(ts) == ns + (t + rest);
    AtSplit(f, off, ns, t + rest);
    AtSplit(f, off + |ns|, t, rest);
  }

  /** Where the begin tokens of the trees stand. */
  function Places(off: nat, ts: seq<Tree>): seq<nat>
    requires forall t :: t in ts ==> Storable(t)
    decreases |ts|
  {
    if ts == [] then []
    else [off + 4 * ts[0].nops] + Places(off + 4 * ts[0].nops + |Flat(ts[0])|, ts[1..])
  }

  /** The child iterator yields exactly the direct children, in order. */
  lemma {:induction false} ListsKids(f: Fdtr, off: nat, ts: seq<Tree>, nops: nat)
    requires Accepted(f) && off > 0
    requires forall t :: t in ts ==> Storable(t) && NamesStored(f, t)
    requires At(f, off, FlatKids(ts) + (Nops(nops) + U32(FDT_END_NODE)))
    ensures ChildrenFrom(f, off, 0) == Places(off, ts)
    decreases |ts|
  {
    hide At, Nops, U32, Flat, FlatKids, Body, NamesStored, Storable, NextChild, ChildFrom, PropFrom;
    var end := Nops(nops) + U32(FDT_END_NODE);
    AtSplit(f, off, FlatKids(ts), end);
    if ts == [] {
      NoKids();
      AtSplit(f, off, Nops(nops), U32(FDT_END_NODE));
      NopsLength(nops);
      SkipNops(f, off, nops, [], 0);
      WordAt(f, off + 4 * nops, FDT_END_NODE);
      NextAtEnd(f, off + 4 * nops, 0);
    } else {
      var t := ts[0];
      KidsSplit(f, off, ts);
      SkipNops(f, off, t.nops, [], 0);
      var o := off + 4 * t.nops;
      NextAtBegin(f, o, t, 0);
      var past := o + 4 + Padded(|t.name| + 1);
      SkipBody(f, past, t, 1);
      AtSplit(f, o + |Flat(t)|, FlatKids(ts[1..]), end);
      ListsKids(f, o + |Flat(t)|, ts[1..], nops);
    }
  }

  // ---- Whole nodes ---------------------------------------------------------------------------

  /** Where the children of a node standing at `node` begin. */
  function KidsAt(node: nat, t: Tree): nat
    requires Storable(t)
  {
    node + 4 + Padded(|t.name| + 1) + |FlatProps(t.props)|
  }

  lemma {:induction false} ReadsNode(f: Fdtr, node: nat, t: Tree, name: Bytes)
    requires Accepted(f) && node > 0 && Storable(t) && NamesStored(f, t) && At(f, node, Flat(t))
    ensures FullName(f, node) == t.name
    ensures PropOf(f, node, name) == FirstValue(t.props, name)
    ensures Children(f, node) == Places(KidsAt(node, t), t.kids)
    ensures At(f, KidsAt(node, t), FlatKids(t.kids))
  {
    hide At, Nops, U32, Flat, FlatKids, FlatProps, Body, NextChild, ChildFrom, PropFrom, StructCstr, Padded, StringAt;
    BeginsAt(f, node, t);
    var o := node + 4 + Padded(|t.name| + 1);
    BodyParts(f, o, t);
    AllProps(f, o, t.props, name, 0);
    var ks := KidsAt(node, t);
    ListsKids(f, ks, t.kids, t.nopsAtEnd);
    AfterProps(f, ks, t, name);
  }

  /** After the properties a property search has failed, and the first child is where the child
      iterator would find it. */
  lemma {:induction false} AfterProps(f: Fdtr, off: nat, t: Tree, name: Bytes)
    requires Accepted(f) && off > 0 && Storable(t)
    requires At(f, off, FlatKids(t.kids) + (Nops(t.nopsAtEnd) + U32(FDT_END_NODE)))
    ensures PropFrom(f, off, name) == None
    ensures ChildFrom(f, off) == if t.kids == [] then None else Some(off + 4 * t.kids[0].nops)
    ensures t.kids != [] ==> ChildrenFrom(f, off + 4 * t.kids[0].nops, 0) == ChildrenFrom(f, off, 0)
  {
    hide At, Nops, U32, Flat, FlatKids, Body, NextChild, ChildFrom, PropFrom;
    var end := Nops(t.nopsAtEnd) + U32(FDT_END_NODE);
    AtSplit(f, off, FlatKids(t.kids), end);
    if t.kids == [] {
      NoKids();
      AtSplit(f, off, Nops(t.nopsAtEnd), U32(FDT_END_NODE));
      NopsLength(t.nopsAtEnd);
      SkipNops(f, off, t.nopsAtEnd, name, 0);
      WordAt(f, off + 4 * t.nopsAtEnd, FDT_END_NODE);
      NextAtEnd(f, off + 4 * t.nopsAtEnd, 0);
    } else {
      var k := t.kids[0];
      KidsSplit(f, off, t.kids);
      SkipNops(f, off, k.nops, name, 0);
      NextAtBegin(f, off + 4 * k.nops, k, 0);
      NoPropAtBegin(f, off + 4 * k.nops, k, name);
    }
  }

  lemma {:induction false} NoPropAtBegin(f: Fdtr, off: nat, t: Tree, name: Bytes)
    requires Accepted(f) && Storable(t) && At(f, off, Flat(t))
    ensures PropFrom(f, off, name) == None
  {
    hide At, StructU32, StructCstr, Flat, Body, Storable, Padded;
    BeginsAt(f, off, t);
  }

  /** The node read at `node` is t: same name, for each property name the value of its first
      occurrence, and as many children, which are t's, in order. */
  ghost predicate Represents(f: Fdtr, node: nat, t: Tree)
    requires Accepted(f)
    decreases t, 0
  {
    && FullName(f, node) == t.name
    && (forall name :: PropOf(f, node, name) == FirstValue(t.props, name))
    && RepresentAll(f, Children(f, node), t.kids)
  }

  ghost predicate RepresentAll(f: Fdtr, nodes: seq<nat>, ts: seq<Tree>)
    requires Accepted(f)
    decreases ts, 1
  {
    |nodes| == |ts| && (ts != [] ==> Represents(f, nodes[0], ts[0]) && RepresentAll(f, nodes[1..], ts[1..]))
  }

  /** Reading back what was flattened rebuilds the tree. */
  lemma {:induction false} ReadsBack(f: Fdtr, node: nat, t: Tree)
    requires Accepted(f) && node > 0 && Storable(t) && NamesStored(f, t) && At(f, node, Flat(t))
    ensures Represents(f, node, t)
    decreases t, 0
  {
    hide At, Flat, FlatKids, Children, PropOf, FullName, FirstValue;
    forall name ensures PropOf(f, node, name) == FirstValue(t.props, name) { ReadsNode(f, node, t, name); }
    ReadsNode(f, node, t, []);
    AllReadBack(f, KidsAt(node, t), t.kids);
  }

  lemma {:induction false} AllReadBack(f: Fdtr, off: nat, ts: seq<Tree>)
    requires Accepted(f) && off > 0 && (forall t :: t in ts ==> Storable(t) && NamesStored(f, t))
    requires At(f, off, FlatKids(ts))
    ensures RepresentAll(f, Places(off, ts), ts)
    decreases ts, 1
  {
    hide At, Flat, FlatKids, Represents;
    if ts != [] {
      KidsSplit(f, off, ts);
      ReadsBack(f, off + 4 * ts[0].nops, ts[0]);
      AllReadBack(f, off + 4 * ts[0].nops + |Flat(ts[0])|, ts[1..]);
    }
  }

  /** The one place where NOP tokens do matter: `root` does not skip any. A well-formed structure
      block has a root for this reader exactly if no NOP precedes it. */
  lemma {:induction false} RootSkipsNoNops(f: Fdtr, nops: nat, t: Tree)
    requires Accepted(f) && Storable(t) && At(f, f.header.offStruct, Nops(nops) + Flat(t))
    ensures Root(f) == if nops == 0 then Some(f.header.offStruct) else None
  {
    hide At, Flat, Storable, StructU32, U32;
    var st := f.header.offStruct;
    AtSplit(f, st, Nops(nops), Flat(t));
    if nops == 0 {
      BeginsAt(f, st, t);
    } else {
      AtSplit(f, st, U32(FDT_NOP), Nops(nops - 1));
      WordAt(f, st, FDT_NOP);
    }
  }
}
