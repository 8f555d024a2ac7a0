/** The framebuffer console: characters blitted into pixel memory in place. */
module Framebuffer {
  import opened Words
  import opened TextGrid

  const GLYPH_W: nat := 8
  const GLYPH_H: nat := 16
  const FG: u32 := 0x00FF_FFFF
  const BG: u32 := 0

  /** 128 glyphs of sixteen scanlines, most significant bit leftmost. The drawing of the letters
      is a parameter: everything here holds for every font. */
  type Font = seq<seq<bv8>>
  ghost predicate ProperFont(f: Font) {
    |f| == 128 && forall i :: 0 <= i < 128 ==> |f[i]| == 16
  }

  function GlyphOf(font: Font, ch: u8): (glyph: seq<bv8>)
    requires ProperFont(font)
    ensures |glyph| == 16
  {
    if ch < 128 then font[ch] else font['?' as int]
  }

  function BitColor(bits: bv8, gx: nat): u32
    requires gx < 8
  {
    if (bits >> (7 - gx)) & 1 != 0 then FG else BG
  }

  // ---- Scanlines as bytes -----------------------------------------------------------------------

  /** A lit pixel counts its weight, any other nothing. */
  function Weight(c: u32, w: bv8): bv8 { if c == 0x00FF_FFFF then w else 0 }

  /** Eight pixels, leftmost first, as the font writes them: the leftmost weighs 128, the rightmost 1. */
  function ByteOf(row: seq<u32>): bv8
    requires |row| == 8
  {
    Weight(row[0], 128) + Weight(row[1], 64) + Weight(row[2], 32) + Weight(row[3], 16)
    + Weight(row[4], 8) + Weight(row[5], 4) + Weight(row[6], 2) + Weight(row[7], 1)
  }

  predicate TwoColours(row: seq<u32>) { forall i :: 0 <= i < |row| ==> row[i] == 0x00FF_FFFF || row[i] == 0 }

  /** The scanlines the font has for a character: its own if it is ASCII, those of '?' otherwise. */
  function FontRow(font: Font, ch: u8, r: nat): bv8
    requires ProperFont(font) && r < 16
  {
    if ch < 128 then font[ch][r] else font[63][r]
  }

  /** Drawn bit by bit, a scanline is the font's byte in two colours. */
  lemma DrawnByte(bits: bv8, row: seq<u32>)
    requires |row| == 8 && forall i :: 0 <= i < 8 ==> row[i] == BitColor(bits, i)
    ensures ByteOf(row) == bits && TwoColours(row)
  {
    assert row[0] == BitColor(bits, 0) && row[1] == BitColor(bits, 1) && row[2] == BitColor(bits, 2)
      && row[3] == BitColor(bits, 3) && row[4] == BitColor(bits, 4) && row[5] == BitColor(bits, 5)
      && row[6] == BitColor(bits, 6) && row[7] == BitColor(bits, 7);
  }

  lemma FontRows(font: Font, ch: u8, r: nat)
    requires ProperFont(font) && r < 16
    ensures GlyphOf(font, ch)[r] == FontRow(font, ch, r)
  {
  }

  /** The pixel a grid shows at (x, y): the glyph of its cell, or background in a blank cell and
      in the margin that holds no whole cell. */
  function Shown(font: Font, g: Grid, x: nat, y: nat): u32
    requires ProperFont(font) && Proper(g)
  {
    if x / GLYPH_W < g.cols && y / GLYPH_H < g.rows then
      match g.cells[y / GLYPH_H][x / GLYPH_W]
      case Blank => BG
      case Glyph(ch) => BitColor(GlyphOf(font, ch)[y % GLYPH_H], x % GLYPH_W)
    else BG
  }

  /** A line break shows the same picture, or at the bottom the picture moved up one glyph height
      over a background strip as high as the whole margin needs. */
  lemma ShownAfterLineBreak(font: Font, g: Grid, height: nat, x: nat, y: nat)
    requires ProperFont(font) && Proper(g) && g.rows == height / GLYPH_H && y < height
    ensures Shown(font, NextLine(g), x, y) ==
      if g.row + 1 < g.rows then Shown(font, g, x, y)
      else if y < height - GLYPH_H then Shown(font, g, x, y + GLYPH_H)
      else BG
  {
    if g.row + 1 >= g.rows && y / GLYPH_H < g.rows - 1 {
      assert (y + GLYPH_H) / GLYPH_H == y / GLYPH_H + 1 && (y + GLYPH_H) % GLYPH_H == y % GLYPH_H;
      assert NextLine(g).cells[y / GLYPH_H] == g.cells[y / GLYPH_H + 1];
    }
  }

  /** A stamped glyph shows in its own cell and nowhere else. */
  lemma ShownAfterStamp(font: Font, g: Grid, ch: u8, x: nat, y: nat)
    requires ProperFont(font) && Proper(g) && g.col < g.cols
    ensures Shown(font, Stamp(g, ch), x, y) ==
      var px, py := g.col * GLYPH_W, g.row * GLYPH_H;
      if px <= x < px + GLYPH_W && py <= y < py + GLYPH_H then BitColor(GlyphOf(font, ch)[y - py], x - px)
      else Shown(font, g, x, y)
  {
    var px, py := g.col * GLYPH_W, g.row * GLYPH_H;
    assert px <= x < px + GLYPH_W <==> x / GLYPH_W == g.col;
    assert py <= y < py + GLYPH_H <==> y / GLYPH_H == g.row;
  }

  /** The r-th scanline of cell (i, j) of a shown grid is the font's byte for its character, and dark if the
      cell is blank. */
  lemma ShownScanline(font: Font, g: Grid, i: nat, j: nat, r: nat, row: seq<u32>)
    requires ProperFont(font) && Proper(g) && i < g.cols && j < g.rows && r < 16
    requires |row| == 8 && forall x: nat :: x < 8 ==> row[x] == Shown(font, g, 8 * i + x, 16 * j + r)
    ensures TwoColours(row)
    ensures ByteOf(row) == match g.cells[j][i] case Blank => 0 case Glyph(ch) => FontRow(font, ch, r)
  {
    hide BitColor, ByteOf, FontRow, TwoColours, GlyphOf;
    forall x: nat | x < 8 ensures row[x] == match g.cells[j][i] case Blank => BG case Glyph(ch) => BitColor(GlyphOf(font, ch)[r], x) {
      CellOf(i, x, j, r);
    }
    match g.cells[j][i]
    case Blank =>
      Dark(row);
    case Glyph(ch) =>
      FontRows(font, ch, r);
      DrawnByte(GlyphOf(font, ch)[r], row);
  }

  lemma CellOf(i: nat, x: nat, j: nat, r: nat)
    requires x < 8 && r < 16
    ensures (8 * i + x) / 8 == i && (8 * i + x) % 8 == x
    ensures (16 * j + r) / 16 == j && (16 * j + r) % 16 == r
  {
  }

  lemma Dark(row: seq<u32>)
    requires |row| == 8 && forall x: nat :: x < 8 ==> row[x] == BG
    ensures ByteOf(row) == 0 && TwoColours(row)
  {
    assert row[0] == 0 && row[1] == 0 && row[2] == 0 && row[3] == 0 && row[4] == 0 && row[5] == 0 && row[6] == 0 && row[7] == 0;
  }

  lemma IndexBound(x: nat, y: nat, w: nat, h: nat, words: nat)
    requires x < w <= words && y < h
    ensures y * words + x < h * words
  {
    assert (y + 1) * words <= h * words by { Monotone(y + 1, h, words); }
    assert (y + 1) * words == y * words + words;
  }

  lemma {:induction false} Monotone(a: nat, b: nat, n: nat)
    requires a <= b
    ensures a * n <= b * n
    decreases b - a
  {
    if a < b {
      Monotone(a + 1, b, n);
      assert (a + 1) * n == a * n + n;
    }
  }

  /** Two pixels share a word only if they are the same pixel. */
  lemma IndexInjective(x: nat, y: nat, x1: nat, y1: nat, words: nat)
    requires x < words && x1 < words && y * words + x == y1 * words + x1
    ensures x == x1 && y == y1
  {
    assert (y + 1) * words == y * words + words;
    assert (y1 + 1) * words == y1 * words + words;
    if y < y1 {
      Monotone(y + 1, y1, words);
    } else if y1 < y {
      Monotone(y1 + 1, y, words);
    }
  }

  class Framebuffer {
    const width: nat
    const height: nat
    const stride: nat          // bytes per scanline
    const mem: array<u32>      // the pixel memory, in words
    const font: Font
    const active: bool         // FB_VA != 0: a framebuffer was found and mapped
    var col: nat
    var row: nat
    ghost var grid: Grid

    /** The geometry the driver needs: a whole glyph fits, scanlines hold whole words and do not
        overlap, and the memory has them all. */
    ghost predicate Fits()
    {
      && ProperFont(font)
      && 8 <= width && 16 <= height && stride % 4 == 0 && 4 * width <= stride
      && mem.Length == height * (stride / 4)
    }

    /** The word of a pixel. */
    ghost function At(x: nat, y: nat): (i: nat)
      requires Fits() && x < width && y < height
      ensures i < mem.Length
    {
      IndexBound(x, y, width, height, stride / 4);
      y * (stride / 4) + x
    }

    /** It stands y scanlines and x words of four bytes into the memory. */
    lemma ByteOffset(x: nat, y: nat)
      requires Fits() && x < width && y < height
      ensures 4 * At(x, y) == y * stride + 4 * x
    {
      assert y * stride == 4 * (y * (stride / 4)) by { assert stride == 4 * (stride / 4); }
    }

    ghost function Pixel(x: nat, y: nat): u32
      requires Fits() && x < width && y < height
      reads mem
    {
      mem[At(x, y)]
    }

    /** Eight pixels of the scanline y, from x on. */
    ghost function Eight(x: nat, y: nat): (row: seq<u32>)
      requires Fits() && x + 8 <= width && y < height
      reads mem
      ensures |row| == 8 && forall i: nat :: i < 8 ==> row[i] == Pixel(x + i, y)
    {
      [Pixel(x, y), Pixel(x + 1, y), Pixel(x + 2, y), Pixel(x + 3, y),
       Pixel(x + 4, y), Pixel(x + 5, y), Pixel(x + 6, y), Pixel(x + 7, y)]
    }

    /** Whenever the console shows its grid, each character stands in its cell as the font draws it. */
    lemma CellShows(i: nat, j: nat, r: nat)
      requires Fits() && Shows() && i < grid.cols && j < grid.rows && r < 16
      ensures 8 * i + 8 <= width && 16 * j + r < height && TwoColours(Eight(8 * i, 16 * j + r))
      ensures ByteOf(Eight(8 * i, 16 * j + r)) == match grid.cells[j][i]
        case Blank => 0
        case Glyph(ch) => FontRow(font, ch, r)
    {
      hide Shown, ByteOf, TwoColours, FontRow;
      ShownScanline(font, grid, i, j, r, Eight(8 * i, 16 * j + r));
    }

    /** The visible pixels show the grid, and the cursor is the grid's. */
    ghost predicate Shows()
      requires Fits()
      reads this, mem
    {
      && Proper(grid) && grid.cols == width / GLYPH_W && grid.rows == height / GLYPH_H
      && grid.col == col && grid.row == row
      && forall x: nat, y: nat :: x < width && y < height ==> Pixel(x, y) == Shown(font, grid, x, y)
    }

    /** No framebuffer in the devicetree: the address and the geometry stay zero. */
    constructor Absent(font: Font)
      requires ProperFont(font)
      ensures !active && this.font == font && width == 0 && height == 0
    {
      this.width, this.height, this.stride, this.font := 0, 0, 0, font;
      mem := new u32[0];
      active := false;
      col, row := 0, 0;
      grid := Cleared(0, 0);
    }

    /** A framebuffer found and mapped. */
    constructor (width: nat, height: nat, stride: nat, mem: array<u32>, font: Font)
      requires 8 <= width && 16 <= height && stride % 4 == 0 && 4 * width <= stride
      requires mem.Length == height * (stride / 4) && ProperFont(font)
      ensures Fits() && active
      ensures this.mem == mem && this.font == font && this.width == width && this.height == height
    {
      this.width, this.height, this.stride, this.mem, this.font := width, height, stride, mem, font;
      active := true;
      col, row := 0, 0;
      grid := Cleared(width / GLYPH_W, height / GLYPH_H);
    }

    /** Store one pixel at byte offset y * stride + x * 4. Nothing else in memory changes. */
    method PutPixel(x: nat, y: nat, c: u32)
      requires active ==> Fits() && x < width && y < height
      modifies mem
      ensures active ==> Pixel(x, y) == c
      ensures active ==> forall x1: nat, y1: nat :: x1 < width && y1 < height && (x1 != x || y1 != y) ==>
        Pixel(x1, y1) == old(Pixel(x1, y1))
      ensures active ==> forall i :: 0 <= i < mem.Length && i != At(x, y) ==> mem[i] == old(mem[i])
      ensures !active ==> mem[..] == old(mem[..])
    {
      if !active {
        return;
      }
      var offset := y * stride + x * 4;
      assert offset / 4 == At(x, y) by {
        assert stride == 4 * (stride / 4);
        assert y * stride == 4 * (y * (stride / 4));
      }
      forall x1: nat, y1: nat | x1 < width && y1 < height && (x1 != x || y1 != y)
        ensures At(x1, y1) != At(x, y)
      {
        if At(x1, y1) == At(x, y) { IndexInjective(x, y, x1, y1, stride / 4); }
      }
      mem[offset / 4] := c;
    }

    method GetPixel(x: nat, y: nat) returns (c: u32)
      requires Fits() && x < width && y < height
      ensures c == Pixel(x, y)
    {
      var offset := y * stride + x * 4;
      assert offset / 4 == At(x, y) by {
        assert stride == 4 * (stride / 4);
        assert y * stride == 4 * (y * (stride / 4));
      }
      c := mem[offset / 4];
    }

    /** The scanlines of the glyph stand there, as far down as the screen goes. */
    ghost predicate Drawn(ch: u8, px: nat, py: nat)
      requires Fits() && px + 8 <= width
      reads mem
    {
      forall r: nat :: r < 16 && py + r < height ==>
        ByteOf(Eight(px, py + r)) == FontRow(font, ch, r) && TwoColours(Eight(px, py + r))
    }

    lemma GlyphDrawn(ch: u8, px: nat, py: nat)
      requires Fits() && px + 8 <= width
      requires forall x: nat, y: nat :: px <= x < px + 8 && py <= y < py + 16 && y < height ==>
        Pixel(x, y) == BitColor(GlyphOf(font, ch)[y - py], x - px)
      ensures Drawn(ch, px, py)
    {
      hide ByteOf, TwoColours, FontRow, BitColor, GlyphOf;
      forall r: nat | r < 16 && py + r < height
        ensures ByteOf(Eight(px, py + r)) == FontRow(font, ch, r) && TwoColours(Eight(px, py + r))
      {
        FontRows(font, ch, r);
        DrawnByte(GlyphOf(font, ch)[r], Eight(px, py + r));
      }
    }

    /** Draw a glyph with its corner at (px, py), clipped at the right and bottom edges. */
    method BlitGlyph(ch: u8, px: nat, py: nat)
      requires ProperFont(font) && (active ==> Fits())
      modifies mem
      ensures active ==> forall x: nat, y: nat :: x < width && y < height ==>
        Pixel(x, y) ==
          if px <= x < px + GLYPH_W && py <= y < py + GLYPH_H
          then BitColor(GlyphOf(font, ch)[y - py], x - px)
          else old(Pixel(x, y))
      ensures active && px + 8 <= width ==> Drawn(ch, px, py)
      ensures !active ==> mem[..] == old(mem[..])
    {
      hide Drawn;
      var glyph := GlyphOf(font, ch);
      for r := 0 to GLYPH_H
        invariant !active ==> mem[..] == old(mem[..])
        invariant active ==> forall x: nat, y: nat :: x < width && y < height ==>
          Pixel(x, y) ==
            if px <= x < px + GLYPH_W && py <= y < py + r then BitColor(glyph[y - py], x - px)
            else old(Pixel(x, y))
      {
        var bits := glyph[r];
        var dy := py + r;
        if dy >= height {
          break;
        }
        for c := 0 to GLYPH_W
          invariant !active ==> mem[..] == old(mem[..])
          invariant active ==> forall x: nat, y: nat :: x < width && y < height ==>
            Pixel(x, y) ==
              if (px <= x < px + GLYPH_W && py <= y < dy) || (px <= x < px + c && y == dy)
              then BitColor(glyph[y - py], x - px)
              else old(Pixel(x, y))
        {
          var dx := px + c;
          if dx >= width {
            break;
          }
          PutPixel(dx, dy, BitColor(bits, c));
        }
      }
      if active && px + 8 <= width { GlyphDrawn(ch, px, py); }
    }

    /** Fill the scanline y. */
    method ClearLine(y: nat)
      requires Fits() && y < height && active
      modifies mem
      ensures forall x: nat, y1: nat :: x < width && y1 < height ==>
        Pixel(x, y1) == if y1 == y then BG else old(Pixel(x, y1))
    {
      for x := 0 to width
        invariant forall x1: nat, y1: nat :: x1 < width && y1 < height ==>
          Pixel(x1, y1) == if y1 == y && x1 < x then BG else old(Pixel(x1, y1))
      {
        PutPixel(x, y, BG);
      }
    }

    method Clear()
      requires active ==> Fits()
      modifies this`col, this`row, this`grid, mem
      ensures active ==> Shows() && grid == Cleared(width / GLYPH_W, height / GLYPH_H)
      ensures !active ==> col == old(col) && row == old(row) && grid == old(grid) && mem[..] == old(mem[..])
    {
      if !active {
        return;
      }
      for y := 0 to height
        invariant forall x1: nat, y1: nat :: x1 < width && y1 < y ==> Pixel(x1, y1) == BG
      {
        ClearLine(y);
      }
      col, row := 0, 0;
      grid := Cleared(width / GLYPH_W, height / GLYPH_H);
    }

    /** Move the picture up one glyph height, in place: each scanline is copied over one that has
        already been copied away, and the last sixteen are filled. */
    method Scroll()
      requires active ==> Fits()
      modifies mem
      ensures active ==> forall x: nat, y: nat :: x < width && y < height ==>
        Pixel(x, y) == if y < height - GLYPH_H then old(Pixel(x, y + GLYPH_H)) else BG
      ensures !active ==> mem[..] == old(mem[..])
    {
      if !active {
        return;
      }
      for y := GLYPH_H to height
        invariant forall x1: nat, y1: nat :: x1 < width && y1 < height ==>
          Pixel(x1, y1) == if y1 < y - GLYPH_H then old(Pixel(x1, y1 + GLYPH_H)) else old(Pixel(x1, y1))
      {
        for x := 0 to width
          invariant forall x1: nat, y1: nat :: x1 < width && y1 < height ==>
            Pixel(x1, y1) ==
              if y1 < y - GLYPH_H || (y1 == y - GLYPH_H && x1 < x) then old(Pixel(x1, y1 + GLYPH_H))
              else old(Pixel(x1, y1))
        {
          var px := GetPixel(x, y);
          PutPixel(x, y - GLYPH_H, px);
        }
      }
      for y := height - GLYPH_H to height
        invariant forall x1: nat, y1: nat :: x1 < width && y1 < height ==>
          Pixel(x1, y1) ==
            if y1 < height - GLYPH_H then old(Pixel(x1, y1 + GLYPH_H))
            else if y1 < y then BG
            else old(Pixel(x1, y1))
      {
        ClearLine(y);
      }
    }

    /** To the next line, scrolling if it was the last. */
    method LineBreak()
      requires Fits() && Shows() && active
      modifies this`col, this`row, this`grid, mem
      ensures Shows() && grid == NextLine(old(grid))
    {
      var rows := height / GLYPH_H;
      col := 0;
      var newRow := row + 1;
      row := newRow;
      if newRow >= rows {
        Scroll();
        row := rows - 1;
      }
      forall x: nat, y: nat | x < width && y < height
        ensures Pixel(x, y) == Shown(font, NextLine(grid), x, y)
      {
        ShownAfterLineBreak(font, grid, height, x, y);
      }
      grid := NextLine(grid);
    }

    /** One character: the visible pixels go on showing the grid. */
    method WriteChar(ch: u8)
      requires active ==> Fits() && Shows()
      modifies this`col, this`row, this`grid, mem
      ensures active ==> Shows() && grid == Typed(old(grid), ch)
      ensures !active ==> col == old(col) && row == old(row) && grid == old(grid) && mem[..] == old(mem[..])
    {
      if !active {
        return;
      }
      var cols := width / GLYPH_W;
      if ch == LF {
        LineBreak();
        return;
      }
      if ch == CR {
        col := 0;
        grid := grid.(col := 0);
        return;
      }
      if col >= cols {
        LineBreak();
      }
      BlitGlyph(ch, col * GLYPH_W, row * GLYPH_H);
      col := col + 1;
      forall x: nat, y: nat | x < width && y < height
        ensures Pixel(x, y) == Shown(font, Stamp(grid, ch), x, y)
      {
        ShownAfterStamp(font, grid, ch, x, y);
      }
      grid := Stamp(grid, ch);
    }

    /** A string, with a carriage return put in front of each newline. After any string from a
        cleared screen the visible pixels show the last lines of the transcript. */
    method WriteStr(s: seq<u8>)
      requires active ==> Fits() && Shows()
      modifies this`col, this`row, this`grid, mem
      ensures active ==> Shows() && grid == TypedAll(old(grid), s)
      ensures !active ==> col == old(col) && row == old(row) && grid == old(grid) && mem[..] == old(mem[..])
    {
      for i := 0 to |s|
        invariant active ==> Shows() && grid == TypedAll(old(grid), s[..i])
        invariant !active ==> col == old(col) && row == old(row) && grid == old(grid) && mem[..] == old(mem[..])
      {
        assert s[..i + 1][..i] == s[..i];
        if s[i] == LF {
          WriteChar(CR);
        }
        WriteChar(s[i]);
      }
      assert s[..|s|] == s;
    }
  }
}
