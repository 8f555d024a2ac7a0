/** The flattened devicetree format (Devicetree Specification, chapter 5): big-endian words,
    NUL-terminated names, and the structure block a tree is flattened into. */
module FdtFormat {
  import opened Words

  type Bytes = seq<u8>

  datatype Option<T> = None | Some(value: T) {
    function GetOr(other: T): T { if Some? then value else other }
  }

  const FDT_BEGIN_NODE: u32 := 1
  const FDT_END_NODE: u32 := 2
  const FDT_PROP: u32 := 3
  const FDT_NOP: u32 := 4
  const FDT_END: u32 := 9
  const FDT_MAGIC: u32 := 0xd00d_feed

  // ---- Words and names -----------------------------------------------------------------

  /** Most significant byte first. */
  function U32(x: u32): (r: Bytes)
    ensures |r| == 4
  {
    var x1 := x / 0x100;
    var x2 := x1 / 0x100;
    [x2 / 0x100, x2 % 0x100, x1 % 0x100, x % 0x100]
  }

  function FromU32(b: Bytes): (x: u32)
    requires |b| == 4
  {
    var (b0: int, b1: int, b2: int, b3: int) := (b[0], b[1], b[2], b[3]);
    ((b0 * 0x100 + b1) * 0x100 + b2) * 0x100 + b3
  }

  function U64(x: u64): Bytes { U32(x / 0x1_0000_0000) + U32(x % 0x1_0000_0000) }

  function FromU64(b: Bytes): u64
    requires |b| == 8
  {
    var (hi: int, lo: int) := (FromU32(b[..4]), FromU32(b[4..]));
    hi * 0x1_0000_0000 + lo
  }

  lemma U32RoundTrip(x: u32)
    ensures FromU32(U32(x)) == x
  {
  }

  lemma U64RoundTrip(x: u64)
    ensures |U64(x)| == 8 && FromU64(U64(x)) == x
  {
    var hi, lo := U32(x / 0x1_0000_0000), U32(x % 0x1_0000_0000);
    assert U64(x)[..4] == hi && U64(x)[4..] == lo;
    U32RoundTrip(x / 0x1_0000_0000);
    U32RoundTrip(x % 0x1_0000_0000);
  }

  /** Is this the UTF-8 encoding of some string? (Unicode Standard, table 3-7.) */
  predicate Utf8(s: Bytes) {
    if s == [] then true
    else if s[0] < 0x80 then Utf8(s[1..])
    else if 0xC2 <= s[0] <= 0xDF then |s| >= 2 && Tail(s[1]) && Utf8(s[2..])
    else if 0xE0 <= s[0] <= 0xEF then
      && |s| >= 3 && Tail(s[1]) && Tail(s[2])
      && (s[0] == 0xE0 ==> s[1] >= 0xA0) && (s[0] == 0xED ==> s[1] <= 0x9F)
      && Utf8(s[3..])
    else if 0xF0 <= s[0] <= 0xF4 then
      && |s| >= 4 && Tail(s[1]) && Tail(s[2]) && Tail(s[3])
      && (s[0] == 0xF0 ==> s[1] >= 0x90) && (s[0] == 0xF4 ==> s[1] <= 0x8F)
      && Utf8(s[4..])
    else false
  }

  predicate Tail(b: u8) { 0x80 <= b <= 0xBF }

  /** Every ASCII string is one. */
  lemma {:induction false} AsciiIsUtf8(s: Bytes)
    requires forall k :: 0 <= k < |s| ==> s[k] < 0x80
    ensures Utf8(s)
  {
    if s != [] {
      AsciiIsUtf8(s[1..]);
    }
  }

  /** A name that can be stored: text without a NUL. */
  predicate Name(s: Bytes) { Utf8(s) && 0 !in s }

  /** `(n + 3) & !3`. */
  function Padded(n: nat): (r: nat)
    ensures n <= r < n + 4 && r % 4 == 0
  {
    (n + 3) / 4 * 4
  }

  function Zeros(n: nat): Bytes { seq(n, _ => 0) }

  function Pad(s: Bytes): (r: Bytes)
    ensures |r| == Padded(|s|)
  {
    s + Zeros(Padded(|s|) - |s|)
  }

  // ---- Trees -------------------------------------------------------------------------------

  /** A property: its name, where the string block holds that name, its value, and how many NOP
      tokens stand before it. */
  datatype Prop = Prop(name: Bytes, nameoff: u32, value: Bytes, nops: nat)

  /** A node. NOP tokens may stand before it and before its end token; properties precede
      children. */
  datatype Tree = Tree(name: Bytes, props: seq<Prop>, kids: seq<Tree>, nops: nat, nopsAtEnd: nat)

  function Nops(n: nat): Bytes {
    if n == 0 then [] else U32(FDT_NOP) + Nops(n - 1)
  }

  function FlatProp(p: Prop): Bytes
    requires |p.value| < 0x1_0000_0000
  {
    Nops(p.nops) + (U32(FDT_PROP) + U32(|p.value|) + U32(p.nameoff) + Pad(p.value))
  }

  function FlatProps(ps: seq<Prop>): Bytes
    requires forall p :: p in ps ==> |p.value| < 0x1_0000_0000
  {
    if ps == [] then [] else FlatProp(ps[0]) + FlatProps(ps[1..])
  }

  predicate Storable(t: Tree) {
    && Name(t.name)
    && (forall p :: p in t.props ==> Name(p.name) && |p.value| < 0x1_0000_0000)
    && forall k :: k in t.kids ==> Storable(k)
  }

  /** The tokens of a node from its begin token to its end token. */
  function Flat(t: Tree): Bytes
    requires Storable(t)
    decreases t, 0
  {
    U32(FDT_BEGIN_NODE) + Pad(t.name + [0]) + Body(t)
  }

  /** What follows the name. */
  function Body(t: Tree): Bytes
    requires Storable(t)
    decreases t, 0, 0
  {
    FlatProps(t.props) + (FlatKids(t.kids) + (Nops(t.nopsAtEnd) + U32(FDT_END_NODE)))
  }

  function FlatKids(ts: seq<Tree>): Bytes
    requires forall t :: t in ts ==> Storable(t)
    decreases ts, 1
  {
    if ts == [] then [] else Nops(ts[0].nops) + Flat(ts[0]) + FlatKids(ts[1..])
  }
}
