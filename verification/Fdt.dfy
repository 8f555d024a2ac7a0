/** `fdt.rs` as it runs: loops over offsets and iterators that update their own fields. That each
    method verifies on any accepted blob is its totality: every read is in bounds and every loop and
    recursion ends, however malformed the tokens, lengths and string offsets. */
module Fdt {
  import opened Words
  import opened FdtFormat
  import opened FdtReader

  /** `Fdtr::new`. */
  method OpenBlob(blob: Bytes) returns (r: Option<Fdtr>)
    requires Readable(blob)
    ensures r == New(blob)
    ensures r.Some? ==> Accepted(r.value) && r.value.blob == blob
  {
    hide FromU32;
    var magic := ReadU32(blob, 0, HEADER_SIZE);
    if magic != Some(FDT_MAGIC) { return None; }
    var totalsize := ReadU32(blob, 4, HEADER_SIZE).GetOr(0);
    var offStruct := ReadU32(blob, 8, totalsize);
    var offStrings := ReadU32(blob, 12, totalsize);
    var offRsvmap := ReadU32(blob, 16, totalsize);
    var version := ReadU32(blob, 20, totalsize);
    var lastComp := ReadU32(blob, 24, totalsize);
    var bootCpuid := ReadU32(blob, 28, totalsize);
    var sizeStrings := ReadU32(blob, 32, totalsize);
    var sizeStruct := ReadU32(blob, 36, totalsize);
    if offStruct.None? || offStrings.None? || offRsvmap.None? || version.None? || lastComp.None? || bootCpuid.None?
      || sizeStrings.None? || sizeStruct.None? {
      return None;
    }
    var header := Header(totalsize, offStruct.value, offStrings.value, offRsvmap.value, version.value, lastComp.value,
                         bootCpuid.value, sizeStrings.value, sizeStruct.value);
    var f := Fdtr(blob, header);
    if StructEnd(f) > totalsize as int || StringsEnd(f) > totalsize as int { return None; }
    if (header.offStruct as int) < HEADER_SIZE { return None; }
    return Some(f);
  }

  /** `read_cstr`. */
  method ScanCstr(blob: Bytes, off: nat, limit: nat) returns (r: Option<Bytes>)
    requires limit <= |blob|
    ensures r == ReadCstr(blob, off, limit)
  {
    if off >= limit { return None; }
    var end := off;
    while end < limit
      invariant off <= end <= limit
      invariant FirstNul(blob, end, limit) == FirstNul(blob, off, limit)
    {
      if blob[end] == 0 { break; }
      end := end + 1;
    }
    if end >= limit { return None; }
    var bytes := blob[off..end];
    return if Utf8(bytes) then Some(bytes) else None;
  }

  /** `prop`. */
  method FindProp(f: Fdtr, node: nat, name: Bytes) returns (r: Option<Bytes>)
    requires Accepted(f)
    ensures r == PropOf(f, node, name)
  {
    hide ReadU32, ReadCstr;
    var nameOff := node + 4;
    var own := ScanCstr(f.blob, nameOff, f.header.totalsize);
    if own.None? { return None; }
    var off: nat := nameOff + Padded(|own.value| + 1);
    while true
      invariant PropFrom(f, off, name) == PropOf(f, node, name)
      decreases Left(f, off)
    {
      if off + 4 > StructEnd(f) { return None; }
      var token := StructU32(f, off);
      if token.None? { return None; }
      if token.value == FDT_PROP {
        var len := StructU32(f, off + 4);
        if len.None? { return None; }
        var nameoff := StructU32(f, off + 8);
        if nameoff.None? { return None; }
        var pname := StringAt(f, nameoff.value);
        if pname.None? { return None; }
        var data := StructBytes(f, off + 12, len.value);
        if data.None? { return None; }
        if pname.value == name { return data; }
        off := off + 12 + Padded(len.value);
      } else if token.value == FDT_NOP {
        off := off + 4;
      } else {
        return None;
      }
    }
  }

  /** `first_child_offset`. */
  method FirstChildOffset(f: Fdtr, node: nat) returns (r: Option<nat>)
    requires Accepted(f)
    ensures r == FirstChild(f, node)
  {
    hide ReadU32, ReadCstr;
    var nameOff := node + 4;
    var own := ScanCstr(f.blob, nameOff, f.header.totalsize);
    if own.None? { return None; }
    var off: nat := nameOff + Padded(|own.value| + 1);
    while true
      invariant ChildFrom(f, off) == FirstChild(f, node)
      decreases Left(f, off)
    {
      if off + 4 > StructEnd(f) { return None; }
      var token := StructU32(f, off);
      if token.None? { return None; }
      if token.value == FDT_PROP {
        var len := StructU32(f, off + 4);
        if len.None? { return None; }
        off := off + 12 + Padded(len.value);
      } else if token.value == FDT_NOP {
        off := off + 4;
      } else if token.value == FDT_BEGIN_NODE {
        return Some(off);
      } else {
        return None;
      }
    }
  }

  class NodeIter {
    const f: Fdtr
    var offset: nat   // zero when exhausted
    var depth: nat

    /** `children`. */
    constructor (f: Fdtr, node: nat)
      requires Accepted(f)
      ensures this.f == f && ChildrenFrom(f, offset, depth) == Children(f, node)
      ensures offset == 0 || offset > node
    {
      var first := FirstChildOffset(f, node);
      this.f := f;
      this.offset := first.GetOr(0);
      this.depth := 0;
    }

    /** `next`: the next direct child; deeper nodes only move the depth. */
    method Next() returns (r: Option<nat>)
      requires Accepted(f)
      modifies this
      ensures Step(r, offset, depth) == NextChild(f, old(offset), old(depth))
    {
      hide ReadU32, ReadCstr;
      while true
        invariant NextChild(f, offset, depth) == NextChild(f, old(offset), old(depth))
        decreases Left(f, offset)
      {
        if offset == 0 || offset + 4 > StructEnd(f) { return None; }
        var token := StructU32(f, offset);
        if token.None? { return None; }
        offset := offset + 4;
        if token.value == FDT_BEGIN_NODE {
          var name := ScanCstr(f.blob, offset, f.header.totalsize);
          if name.None? { return None; }
          var padded := Padded(|name.value| + 1);
          offset := offset + padded;
          if depth == 0 {
            depth := 1;
            return Some(offset - 4 - padded);
          }
          depth := depth + 1;
        } else if token.value == FDT_END_NODE {
          if depth == 0 {
            offset := 0;
            return None;
          }
          depth := depth - 1;
        } else if token.value == FDT_PROP {
          var len := StructU32(f, offset);
          if len.None? { return None; }
          offset := offset + 8 + Padded(len.value);
        } else if token.value == FDT_NOP {
        } else {
          offset := 0;
          return None;
        }
      }
    }
  }

  /** `compatible`. */
  method CompatibleString(f: Fdtr, node: nat) returns (s: Bytes)
    requires Accepted(f)
    ensures s == Compatible(f, node)
  {
    hide PropOf, Utf8;
    var data := FindProp(f, node, COMPATIBLE);
    if data.None? { return []; }
    var end := 0;
    while end < |data.value| && data.value[end] != 0
      invariant 0 <= end <= |data.value|
      invariant Before(data.value, 0) == data.value[..end] + Before(data.value[end..], 0)
    {
      end := end + 1;
    }
    assert Before(data.value[end..], 0) == [];
    var first := data.value[..end];
    assert Before(data.value, 0) == first;
    s := if Utf8(first) then first else [];
  }

  /** `find`. */
  method FindPath(f: Fdtr, path: Bytes) returns (r: Option<nat>)
    requires Accepted(f)
    ensures r == Find(f, path)
  {
    hide NextChild, FirstChild, Children, ReadU32, ReadCstr, Components, Before;
    var root := Root(f);
    if root.None? { return None; }
    var node := root.value;
    var components := Components(path);
    for i := 0 to |components|
      invariant FindFrom(f, root.value, components) == FindFrom(f, node, components[i..])
    {
      var component := components[i];
      var found: Option<nat> := None;
      var it := new NodeIter(f, node);
      while found.None?
        invariant it.f == f && fresh(it)
        invariant FirstSelected(f, Children(f, node), component) ==
                  if found.Some? then found else FirstSelected(f, ChildrenFrom(f, it.offset, it.depth), component)
        decreases found.None?, Left(f, it.offset)
      {
        var child := it.Next();
        if child.None? { break; }
        var full := FullName(f, child.value);
        if full == component || (AT !in component && AT in full && Before(full, AT) == component) {
          found := child;
        }
      }
      if found.None? { return None; }
      node := found.value;
    }
    return Some(node);
  }

  /** `find_by_compatible_in`: the recursion ends because children stand after their parent. */
  method FindByCompatibleIn(f: Fdtr, node: nat, sub: Bytes) returns (r: Option<nat>)
    requires Accepted(f)
    ensures r == CompatibleIn(f, node, sub)
    decreases Left(f, node)
  {
    var own := CompatibleString(f, node);
    if Contains(own, sub) { return Some(node); }
    var it := new NodeIter(f, node);
    while true
      invariant it.f == f && fresh(it) && (it.offset == 0 || it.offset > node)
      invariant CompatibleIn(f, node, sub) == CompatibleAmong(f, node, ChildrenFrom(f, it.offset, it.depth), sub)
      decreases Left(f, it.offset)
    {
      var child := it.Next();
      if child.None? { return None; }
      var found := FindByCompatibleIn(f, child.value, sub);
      if found.Some? { return found; }
    }
  }

  /** `find_by_compatible`. */
  method FindByCompatible(f: Fdtr, sub: Bytes) returns (r: Option<nat>)
    requires Accepted(f)
    ensures r == FindCompatible(f, sub)
  {
    var root := Root(f);
    if root.None? { return None; }
    r := FindByCompatibleIn(f, root.value, sub);
  }

  class ReserveIter {
    const f: Fdtr
    var offset: nat

    constructor (f: Fdtr)
      ensures this.f == f && offset == f.header.offRsvmap
    {
      this.f := f;
      offset := f.header.offRsvmap;
    }

    method Next() returns (r: Option<Reserve>)
      requires Accepted(f)
      modifies this
      ensures r == ReserveAt(f, old(offset)) && offset == old(offset) + if r.Some? then 16 else 0
      ensures ReservesFrom(f, old(offset)) == if r.Some? then [r.value] + ReservesFrom(f, offset) else []
    {
      var address := StructU64(f, offset);
      if address.None? { return None; }
      var size := StructU64(f, offset + 8);
      if size.None? { return None; }
      if address.value == 0 && size.value == 0 { return None; }
      offset := offset + 16;
      return Some(Reserve(address.value, size.value));
    }
  }

  class CellIter {
    const data: Bytes
    var pos: nat

    constructor (data: Bytes)
      ensures this.data == data && pos == 0
    {
      this.data := data;
      pos := 0;
    }

    method Next() returns (r: Option<u32>)
      modifies this
      ensures CellsFrom(data, old(pos)) == if r.Some? then [r.value] + CellsFrom(data, pos) else []
      ensures pos == old(pos) + if r.Some? then 4 else 0
    {
      if pos + 4 > |data| { return None; }
      var cell := FromU32(data[pos..pos + 4]);
      pos := pos + 4;
      return Some(cell);
    }
  }
}
