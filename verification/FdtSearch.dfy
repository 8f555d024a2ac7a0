/** What the searches find on a flattened tree. */
module FdtSearch {
  import opened Words
  import opened FdtFormat
  import opened FdtReader
  import opened FdtRoundTrip

  // ---- By compatible string: pre-order -----------------------------------------------------

  /** The nodes of the tree in pre-order, with the places of their begin tokens. */
  function Preorder(node: nat, t: Tree): seq<(nat, Tree)>
    requires Storable(t)
    decreases t, 0
  {
    [(node, t)] + PreorderKids(KidsAt(node, t), t.kids)
  }

  function PreorderKids(off: nat, ts: seq<Tree>): seq<(nat, Tree)>
    requires forall t :: t in ts ==> Storable(t)
    decreases ts, 1
  {
    if ts == [] then []
    else
      var o := off + 4 * ts[0].nops;
      Preorder(o, ts[0]) + PreorderKids(o + |Flat(ts[0])|, ts[1..])
  }

  /** The first string of the tree's own `compatible` property. */
  function CompatibleOf(t: Tree): Bytes {
    match FirstValue(t.props, COMPATIBLE)
    case None => []
    case Some(data) => FirstString(data)
  }

  predicate Fits(entry: (nat, Tree), sub: Bytes) { Contains(CompatibleOf(entry.1), sub) }

  function FirstFit(entries: seq<(nat, Tree)>, sub: Bytes): (r: Option<nat>)
    ensures r.None? <==> forall k :: 0 <= k < |entries| ==> !Fits(entries[k], sub)
    ensures r.Some? ==> exists k :: 0 <= k < |entries| && Fits(entries[k], sub) && entries[k].0 == r.value
                                    && forall j :: 0 <= j < k ==> !Fits(entries[j], sub)
  {
    if entries == [] then None
    else if Fits(entries[0], sub) then Some(entries[0].0)
    else
      var r := FirstFit(entries[1..], sub);
      assert forall k :: 1 <= k < |entries| ==> entries[k] == entries[1..][k - 1];
      r
  }

  lemma {:induction false} FirstFitOfTwo(a: seq<(nat, Tree)>, b: seq<(nat, Tree)>, sub: Bytes)
    ensures FirstFit(a + b, sub) == if FirstFit(a, sub).Some? then FirstFit(a, sub) else FirstFit(b, sub)
    decreases |a|
  {
    hide Fits;
    if a == [] {
      assert a + b == b;
    } else {
      assert (a + b)[1..] == a[1..] + b && (a + b)[0] == a[0];
      FirstFitOfTwo(a[1..], b, sub);
    }
  }

  lemma {:induction false} SearchesInPreorder(f: Fdtr, node: nat, t: Tree, sub: Bytes)
    requires Accepted(f) && node > 0 && Storable(t) && NamesStored(f, t) && At(f, node, Flat(t))
    ensures CompatibleIn(f, node, sub) == FirstFit(Preorder(node, t), sub)
    decreases t, 0
  {
    hide At, Flat, FlatKids, Contains, FirstString, Children, PropOf, FullName, FirstValue, FirstFit;
    ReadsNode(f, node, t, COMPATIBLE);
    SearchesKids(f, node, KidsAt(node, t), t.kids, sub);
    FirstFitOfTwo([(node, t)], PreorderKids(KidsAt(node, t), t.kids), sub);
    FirstFitOfOne((node, t), sub);
  }

  lemma {:induction false} FirstFitOfOne(e: (nat, Tree), sub: Bytes)
    ensures FirstFit([e], sub) == if Fits(e, sub) then Some(e.0) else None
  {
    hide Fits;
    assert FirstFit([e][1..], sub) == None;
  }

  lemma {:induction false} SearchesKids(f: Fdtr, above: nat, off: nat, ts: seq<Tree>, sub: Bytes)
    requires Accepted(f) && off > 0 && (forall t :: t in ts ==> Storable(t) && NamesStored(f, t))
    requires At(f, off, FlatKids(ts))
    requires forall k :: 0 <= k < |Places(off, ts)| ==> above < Places(off, ts)[k] < StructEnd(f)
    ensures CompatibleAmong(f, above, Places(off, ts), sub) == FirstFit(PreorderKids(off, ts), sub)
    decreases ts, 1
  {
    hide At, Flat, FlatKids, CompatibleIn, Preorder, FirstFit, Storable, NamesStored, Places, Fits, CompatibleOf;
    if ts == [] {
      NoPlaces(off);
      NoneFit(sub);
    } else {
      var o := off + 4 * ts[0].nops;
      KidsSplit(f, off, ts);
      SearchesInPreorder(f, o, ts[0], sub);
      FirstPlace(off, ts);
      SearchesKids(f, above, o + |Flat(ts[0])|, ts[1..], sub);
      FirstFitOfTwo(Preorder(o, ts[0]), PreorderKids(o + |Flat(ts[0])|, ts[1..]), sub);
    }
  }

  lemma {:induction false} NoPlaces(off: nat)
    ensures Places(off, []) == []
  {
  }

  lemma FirstPlace(off: nat, ts: seq<Tree>)
    requires ts != [] && forall t :: t in ts ==> Storable(t)
    ensures var (p, o) := (Places(off, ts), off + 4 * ts[0].nops);
      p != [] && p[0] == o && p[1..] == Places(o + |Flat(ts[0])|, ts[1..])
  {
    hide Storable, Flat;
  }

  lemma {:induction false} NoneFit(sub: Bytes)
    ensures FirstFit([], sub) == None
  {
  }

  // ---- By path -------------------------------------------------------------------------------

  /** A component with a unit address selects that full name; one without selects every node of
      that bare name. */
  lemma {:induction false} SelectsMeaning(component: Bytes, full: Bytes)
    ensures AT in component ==> (Selects(component, full) <==> full == component)
    ensures AT !in component ==> (Selects(component, full) <==> Before(full, AT) == component)
  {
    BeforeWhole(full, AT);
  }

  lemma {:induction false} BeforeWhole(s: Bytes, b: u8)
    ensures b !in Before(s, b)
    ensures Before(s, b) == s <==> b !in s
  {
    if s != [] && s[0] != b {
      BeforeWhole(s[1..], b);
      assert s == [s[0]] + s[1..];
    }
  }

  /** The first child of that name. */
  function Chosen(ts: seq<Tree>, component: Bytes): (r: Option<nat>)
    ensures r.None? <==> forall k :: 0 <= k < |ts| ==> !Selects(component, ts[k].name)
    ensures r.Some? ==> r.value < |ts| && Selects(component, ts[r.value].name)
                        && forall j :: 0 <= j < r.value ==> !Selects(component, ts[j].name)
  {
    if ts == [] then None
    else if Selects(component, ts[0].name) then Some(0)
    else
      var r := Chosen(ts[1..], component);
      assert forall k :: 1 <= k < |ts| ==> ts[k] == ts[1..][k - 1];
      match r
      case None => None
      case Some(k) => Some(k + 1)
  }

  /** The subtree a path leads to: at each component the first child it selects. */
  function Subtree(t: Tree, path: seq<Bytes>): Option<Tree>
    decreases |path|
  {
    if path == [] then Some(t)
    else match Chosen(t.kids, path[0])
      case None => None
      case Some(k) => Subtree(t.kids[k], path[1..])
  }

  lemma {:induction false} SelectsAmongKids(f: Fdtr, off: nat, ts: seq<Tree>, component: Bytes)
    requires Accepted(f) && off > 0 && (forall t :: t in ts ==> Storable(t) && NamesStored(f, t))
    requires At(f, off, FlatKids(ts))
    ensures var r, c := FirstSelected(f, Places(off, ts), component), Chosen(ts, component);
      && (r.Some? <==> c.Some?)
      && (c.Some? ==> c.value < |ts| && r.value > 0 && At(f, r.value, Flat(ts[c.value])))
    decreases |ts|
  {
    hide At, Flat, FlatKids, Selects, FullName, Chosen, Storable, NamesStored;
    if ts == [] {
      assert Chosen(ts, component) == None by { NoneChosen(component); }
    } else {
      var o := off + 4 * ts[0].nops;
      KidsSplit(f, off, ts);
      assert FullName(f, o) == ts[0].name by { ReadsNode(f, o, ts[0], []); }
      assert Places(off, ts)[1..] == Places(o + |Flat(ts[0])|, ts[1..]);
      ChosenStep(ts, component);
      if !Selects(component, ts[0].name) {
        SelectsAmongKids(f, o + |Flat(ts[0])|, ts[1..], component);
      }
    }
  }

  lemma {:induction false} NoneChosen(component: Bytes)
    ensures Chosen([], component) == None
  {
  }

  lemma {:induction false} ChosenStep(ts: seq<Tree>, component: Bytes)
    requires ts != []
    ensures var c, rest := Chosen(ts, component), Chosen(ts[1..], component);
      if Selects(component, ts[0].name) then c == Some(0)
      else (c.Some? <==> rest.Some?) && (c.Some? ==> c.value < |ts| && ts[c.value] == ts[1..][rest.value])
  {
    hide Selects;
  }

  /** `find` ends on the node of the subtree the path leads to, and nowhere if it leads nowhere. */
  lemma {:induction false} FindsSubtree(f: Fdtr, node: nat, t: Tree, path: seq<Bytes>)
    requires Accepted(f) && node > 0 && Storable(t) && NamesStored(f, t) && At(f, node, Flat(t))
    ensures FindFrom(f, node, path).Some? <==> Subtree(t, path).Some?
    ensures Subtree(t, path).Some? ==> Represents(f, FindFrom(f, node, path).value, Subtree(t, path).value)
    decreases |path|
  {
    hide At, Flat, FlatKids, Children, FirstSelected, Represents, FullName, PropOf, FirstValue;
    if path == [] {
      ReadsBack(f, node, t);
    } else {
      ReadsNode(f, node, t, []);
      SelectsAmongKids(f, KidsAt(node, t), t.kids, path[0]);
      var c := Chosen(t.kids, path[0]);
      if c.Some? {
        FindsSubtree(f, FirstSelected(f, Children(f, node), path[0]).value, t.kids[c.value], path[1..]);
      }
    }
  }

  /** A path as it is written. */
  function Written(path: seq<Bytes>): Bytes {
    if path == [] then [] else [SLASH] + path[0] + Written(path[1..])
  }

  /** Taking a written path apart gives its components back. */
  lemma {:induction false} ComponentsOfWritten(path: seq<Bytes>)
    requires forall k :: 0 <= k < |path| ==> path[k] != [] && SLASH !in path[k]
    ensures Components(Written(path)) == path
    decreases |path|
  {
    hide Components;
    if path == [] {
      NoComponents();
    } else {
      var rest := Written(path[1..]);
      ComponentsOfWritten(path[1..]);
      OneComponent(path[0], rest);
      LeadingSlash(path[0] + rest);
      assert Written(path) == [SLASH] + (path[0] + rest);
    }
  }

  lemma NoComponents()
    ensures Components([]) == []
  {
  }

  lemma {:induction false} OneComponent(c: Bytes, rest: Bytes)
    requires c != [] && SLASH !in c && (rest == [] || rest[0] == SLASH)
    ensures Components(c + rest) == [c] + Components(rest)
  {
    if rest == [] {
      BeforeWhole(c, SLASH);
      assert c + rest == c;
      NoComponents();
    } else {
      BeforeJoined(c, rest, SLASH);
      assert (c + rest)[|c| + 1..] == rest[1..];
      LeadingSlash(rest[1..]);
      assert rest == [SLASH] + rest[1..];
    }
  }

  lemma {:induction false} LeadingSlash(s: Bytes)
    ensures Components([SLASH] + s) == Components(s)
  {
    var w := [SLASH] + s;
    assert Before(w, SLASH) == [] && w[1..] == s;
  }

  lemma {:induction false} BeforeJoined(a: Bytes, s: Bytes, b: u8)
    requires b !in a && s != [] && s[0] == b
    ensures Before(a + s, b) == a
    decreases |a|
  {
    if a == [] {
      assert a + s == s;
    } else {
      assert (a + s)[1..] == a[1..] + s && (a + s)[0] == a[0];
      BeforeJoined(a[1..], s, b);
      assert a == [a[0]] + a[1..];
    }
  }
}
