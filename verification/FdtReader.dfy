/** What each reading operation of `fdt.rs` computes, on any blob whatsoever: reads past the end,
    missing terminators and unknown tokens are answers, not errors. */
module FdtReader {
  import opened Words
  import opened FdtFormat

  datatype Header = Header(totalsize: u32, offStruct: u32, offStrings: u32, offRsvmap: u32, version: u32,
                           lastComp: u32, bootCpuid: u32, sizeStrings: u32, sizeStruct: u32)

  datatype Fdtr = Fdtr(blob: Bytes, header: Header)

  const HEADER_SIZE := 40

  function StructEnd(f: Fdtr): int { f.header.offStruct + f.header.sizeStruct }
  function StringsEnd(f: Fdtr): int { f.header.offStrings + f.header.sizeStrings }

  /** What `new` establishes. */
  predicate Accepted(f: Fdtr) {
    && f.header.totalsize as int <= |f.blob|
    && HEADER_SIZE <= f.header.offStruct as int <= StructEnd(f) <= f.header.totalsize as int
    && StringsEnd(f) <= f.header.totalsize as int
  }

  // ---- The header -------------------------------------------------------------------------

  /** What the caller of `new` owes: as much readable memory as the header says, or a header's
      worth if it is not one. */
  predicate Readable(blob: Bytes) {
    HEADER_SIZE <= |blob| && FromU32(blob[4..8]) as int <= |blob|
  }

  function Field(blob: Bytes, k: nat): u32
    requires k < 10 && HEADER_SIZE <= |blob|
  {
    FromU32(blob[4 * k..4 * k + 4])
  }

  function HeaderOf(blob: Bytes): Header
    requires HEADER_SIZE <= |blob|
  {
    Header(Field(blob, 1), Field(blob, 2), Field(blob, 3), Field(blob, 4), Field(blob, 5), Field(blob, 6),
           Field(blob, 7), Field(blob, 8), Field(blob, 9))
  }

  /** `new` accepts a blob exactly if this holds of its header. */
  predicate Acceptable(blob: Bytes)
    requires Readable(blob)
  {
    var f := Fdtr(blob, HeaderOf(blob));
    && Field(blob, 0) == FDT_MAGIC && HEADER_SIZE <= f.header.totalsize as int
    && StructEnd(f) <= f.header.totalsize as int && StringsEnd(f) <= f.header.totalsize as int
    && HEADER_SIZE <= f.header.offStruct as int
  }

  function New(blob: Bytes): (r: Option<Fdtr>)
    requires Readable(blob)
    ensures r.Some? ==> Accepted(r.value)
  {
    if Acceptable(blob) then Some(Fdtr(blob, HeaderOf(blob))) else None
  }

  // ---- Reading ------------------------------------------------------------------------------

  function ReadU32(blob: Bytes, off: nat, limit: nat): Option<u32>
    requires limit <= |blob|
  {
    if off + 4 > limit then None else Some(FromU32(blob[off..off + 4]))
  }

  function ReadU64(blob: Bytes, off: nat, limit: nat): Option<u64>
    requires limit <= |blob|
  {
    if off + 8 > limit then None else Some(FromU64(blob[off..off + 8]))
  }

  /** The first NUL at or after off, or limit. */
  function FirstNul(blob: Bytes, off: nat, limit: nat): (end: nat)
    requires off <= limit <= |blob|
    ensures off <= end <= limit
    ensures end < limit ==> blob[end] == 0
    ensures forall k :: off <= k < end ==> blob[k] != 0
    decreases limit - off
  {
    if off == limit || blob[off] == 0 then off else FirstNul(blob, off + 1, limit)
  }

  function ReadCstr(blob: Bytes, off: nat, limit: nat): Option<Bytes>
    requires limit <= |blob|
  {
    if off >= limit then None
    else
      var end := FirstNul(blob, off, limit);
      if end >= limit || !Utf8(blob[off..end]) then None else Some(blob[off..end])
  }

  function StructU32(f: Fdtr, off: nat): Option<u32>
    requires Accepted(f)
  {
    ReadU32(f.blob, off, f.header.totalsize)
  }

  function StructU64(f: Fdtr, off: nat): Option<u64>
    requires Accepted(f)
  {
    ReadU64(f.blob, off, f.header.totalsize)
  }

  function StructCstr(f: Fdtr, off: nat): Option<Bytes>
    requires Accepted(f)
  {
    ReadCstr(f.blob, off, f.header.totalsize)
  }

  /** `string_at`: the scan stays inside the string block. */
  function StringAt(f: Fdtr, nameoff: u32): Option<Bytes>
    requires Accepted(f)
  {
    var off: int := f.header.offStrings + nameoff;
    if off >= StringsEnd(f) then None else ReadCstr(f.blob, off, StringsEnd(f))
  }

  function StructBytes(f: Fdtr, off: nat, len: nat): Option<Bytes>
    requires Accepted(f)
  {
    if off + len > f.header.totalsize as int then None else Some(f.blob[off..off + len])
  }

  // ---- Nodes and properties: a node is the offset of its begin token ----------------------------

  function Root(f: Fdtr): Option<nat>
    requires Accepted(f)
  {
    if StructU32(f, f.header.offStruct) == Some(FDT_BEGIN_NODE) then Some(f.header.offStruct) else None
  }

  function FullName(f: Fdtr, node: nat): Bytes
    requires Accepted(f)
  {
    StructCstr(f, node + 4).GetOr([])
  }

  /** What is left of the structure block, as a measure. */
  function Left(f: Fdtr, off: nat): nat { if off < StructEnd(f) then StructEnd(f) - off else 0 }

  /** The value of the first property of that name in the list at off. */
  function PropFrom(f: Fdtr, off: nat, name: Bytes): Option<Bytes>
    requires Accepted(f)
    decreases Left(f, off)
  {
    if off + 4 > StructEnd(f) then None
    else match StructU32(f, off)
      case None => None
      case Some(token) =>
        if token == FDT_PROP then
          match (StructU32(f, off + 4), StructU32(f, off + 8))
          case (Some(len), Some(nameoff)) =>
            (match (StringAt(f, nameoff), StructBytes(f, off + 12, len))
             case (Some(pname), Some(data)) =>
               if pname == name then Some(data) else PropFrom(f, off + 12 + Padded(len), name)
             case _ => None)
          case _ => None
        else if token == FDT_NOP then PropFrom(f, off + 4, name)
        else None
  }

  function PropOf(f: Fdtr, node: nat, name: Bytes): Option<Bytes>
    requires Accepted(f)
  {
    match StructCstr(f, node + 4)
    case None => None
    case Some(own) => PropFrom(f, node + 4 + Padded(|own| + 1), name)
  }

  /** The first child's begin token in the list at off. */
  function ChildFrom(f: Fdtr, off: nat): (r: Option<nat>)
    requires Accepted(f)
    ensures r.Some? ==> r.value >= off
    decreases Left(f, off)
  {
    if off + 4 > StructEnd(f) then None
    else match StructU32(f, off)
      case None => None
      case Some(token) =>
        if token == FDT_PROP then
          match StructU32(f, off + 4)
          case None => None
          case Some(len) => ChildFrom(f, off + 12 + Padded(len))
        else if token == FDT_NOP then ChildFrom(f, off + 4)
        else if token == FDT_BEGIN_NODE then Some(off)
        else None
  }

  function FirstChild(f: Fdtr, node: nat): (r: Option<nat>)
    requires Accepted(f)
    ensures r.Some? ==> r.value > node
  {
    match StructCstr(f, node + 4)
    case None => None
    case Some(own) => ChildFrom(f, node + 4 + Padded(|own| + 1))
  }

  /** One call of the child iterator: what it yields and where it stands afterwards. */
  datatype Step = Step(child: Option<nat>, offset: nat, depth: nat)

  function NextChild(f: Fdtr, offset: nat, depth: nat): (s: Step)
    requires Accepted(f)
    ensures s.child.Some? ==> s.child.value >= offset > 0 && s.offset > s.child.value && s.child.value < StructEnd(f)
    decreases Left(f, offset)
  {
    if offset == 0 || offset + 4 > StructEnd(f) then Step(None, offset, depth)
    else match StructU32(f, offset)
      case None => Step(None, offset, depth)
      case Some(token) =>
        var o := offset + 4;
        if token == FDT_BEGIN_NODE then
          match StructCstr(f, o)
          case None => Step(None, o, depth)
          case Some(name) =>
            var past := o + Padded(|name| + 1);
            if depth == 0 then Step(Some(offset), past, 1) else NextChild(f, past, depth + 1)
        else if token == FDT_END_NODE then
          if depth == 0 then Step(None, 0, depth) else NextChild(f, o, depth - 1)
        else if token == FDT_PROP then
          match StructU32(f, o)
          case None => Step(None, o, depth)
          case Some(len) => NextChild(f, o + 8 + Padded(len), depth)
        else if token == FDT_NOP then NextChild(f, o, depth)
        else Step(None, 0, depth)
  }

  /** All the iterator yields from there on. */
  function ChildrenFrom(f: Fdtr, offset: nat, depth: nat): (r: seq<nat>)
    requires Accepted(f)
    ensures forall k :: 0 <= k < |r| ==> offset <= r[k] < StructEnd(f)
    decreases Left(f, offset)
  {
    var s := NextChild(f, offset, depth);
    if s.child.None? then [] else [s.child.value] + ChildrenFrom(f, s.offset, s.depth)
  }

  function Children(f: Fdtr, node: nat): (r: seq<nat>)
    requires Accepted(f)
    ensures forall k :: 0 <= k < |r| ==> node < r[k] < StructEnd(f)
  {
    match FirstChild(f, node)
    case None => []
    case Some(first) => ChildrenFrom(f, first, 0)
  }

  // ---- The memory reserve map ---------------------------------------------------------------

  datatype Reserve = Reserve(address: u64, size: u64)

  /** The entry at off, unless the map ends there. */
  function ReserveAt(f: Fdtr, off: nat): Option<Reserve>
    requires Accepted(f)
  {
    match (StructU64(f, off), StructU64(f, off + 8))
    case (Some(address), Some(size)) => if address == 0 && size == 0 then None else Some(Reserve(address, size))
    case _ => None
  }

  function ReservesFrom(f: Fdtr, off: nat): seq<Reserve>
    requires Accepted(f)
    decreases |f.blob| - off
  {
    match ReserveAt(f, off)
    case None => []
    case Some(entry) => [entry] + ReservesFrom(f, off + 16)
  }

  /** The whole cells of a property; bytes that do not fill one are ignored. */
  function CellsFrom(data: Bytes, pos: nat): seq<u32>
    decreases |data| - pos
  {
    if pos + 4 > |data| then [] else [FromU32(data[pos..pos + 4])] + CellsFrom(data, pos + 4)
  }

  // ---- Searching ----------------------------------------------------------------------------

  const AT: u8 := 0x40      // '@'
  const SLASH: u8 := 0x2F   // '/'

  /** The bytes before the first b, or all of them. */
  function Before(s: Bytes, b: u8): Bytes {
    if s == [] || s[0] == b then [] else [s[0]] + Before(s[1..], b)
  }

  const COMPATIBLE: Bytes := [0x63, 0x6F, 0x6D, 0x70, 0x61, 0x74, 0x69, 0x62, 0x6C, 0x65]

  function FirstString(data: Bytes): Bytes {
    if Utf8(Before(data, 0)) then Before(data, 0) else []
  }

  /** The first string of the `compatible` property, or nothing. */
  function Compatible(f: Fdtr, node: nat): Bytes
    requires Accepted(f)
  {
    match PropOf(f, node, COMPATIBLE)
    case None => []
    case Some(data) => FirstString(data)
  }

  /** `contains` of text. */
  predicate Contains(s: Bytes, sub: Bytes) { exists k | 0 <= k <= |s| :: StandsAt(s, sub, k) }

  predicate StandsAt(s: Bytes, sub: Bytes, k: int) { 0 <= k <= |s| - |sub| && s[k..k + |sub|] == sub }

  /** Does a path component select a node of this name? */
  predicate Selects(component: Bytes, full: Bytes) {
    full == component || (AT !in component && AT in full && Before(full, AT) == component)
  }

  /** `split('/')` without the empty pieces. */
  function Components(path: Bytes): seq<Bytes>
    decreases |path|
  {
    var first := Before(path, SLASH);
    var rest := if |first| < |path| then Components(path[|first| + 1..]) else [];
    if first == [] then rest else [first] + rest
  }

  function FirstSelected(f: Fdtr, nodes: seq<nat>, component: Bytes): Option<nat>
    requires Accepted(f)
  {
    if nodes == [] then None
    else if Selects(component, FullName(f, nodes[0])) then Some(nodes[0])
    else FirstSelected(f, nodes[1..], component)
  }

  function FindFrom(f: Fdtr, node: nat, path: seq<Bytes>): Option<nat>
    requires Accepted(f)
    decreases |path|
  {
    if path == [] then Some(node)
    else match FirstSelected(f, Children(f, node), path[0])
      case None => None
      case Some(child) => FindFrom(f, child, path[1..])
  }

  function Find(f: Fdtr, path: Bytes): Option<nat>
    requires Accepted(f)
  {
    match Root(f)
    case None => None
    case Some(root) => FindFrom(f, root, Components(path))
  }

  /** Pre-order search below and including a node, and among a list of nodes. */
  function CompatibleIn(f: Fdtr, node: nat, sub: Bytes): Option<nat>
    requires Accepted(f)
    decreases Left(f, node), 1
  {
    if Contains(Compatible(f, node), sub) then Some(node)
    else CompatibleAmong(f, node, Children(f, node), sub)
  }

  function CompatibleAmong(f: Fdtr, above: nat, nodes: seq<nat>, sub: Bytes): Option<nat>
    requires Accepted(f)
    requires forall k :: 0 <= k < |nodes| ==> above < nodes[k] < StructEnd(f)
    decreases Left(f, above), 0, |nodes|
  {
    if nodes == [] then None
    else match CompatibleIn(f, nodes[0], sub)
      case Some(found) => Some(found)
      case None => CompatibleAmong(f, above, nodes[1..], sub)
  }

  function FindCompatible(f: Fdtr, sub: Bytes): Option<nat>
    requires Accepted(f)
  {
    match Root(f)
    case None => None
    case Some(root) => CompatibleIn(f, root, sub)
  }
}
