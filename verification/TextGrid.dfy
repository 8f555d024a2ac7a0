/** What a text console shows: a grid of characters with a cursor, and the transcript it is a
    window on. */
module TextGrid {
  import opened Words

  datatype Cell = Blank | Glyph(ch: u8)
  type Line = seq<Cell>

  /** A grid of `rows` lines of `cols` cells; the cursor may stand one past the last column. */
  datatype Grid = Grid(cols: nat, rows: nat, cells: seq<Line>, col: nat, row: nat)

  const LF: u8 := 10
  const CR: u8 := 13

  ghost predicate Proper(g: Grid) {
    && 1 <= g.cols && 1 <= g.rows
    && |g.cells| == g.rows && (forall r :: 0 <= r < g.rows ==> |g.cells[r]| == g.cols)
    && g.row < g.rows && g.col <= g.cols
  }

  function BlankLine(cols: nat): (l: Line)
    ensures |l| == cols && forall i :: 0 <= i < cols ==> l[i] == Blank
  {
    if cols == 0 then [] else BlankLine(cols - 1) + [Blank]
  }

  function BlankLines(cols: nat, n: nat): (s: seq<Line>)
    ensures |s| == n && forall i :: 0 <= i < n ==> s[i] == BlankLine(cols)
  {
    if n == 0 then [] else BlankLines(cols, n - 1) + [BlankLine(cols)]
  }

  function Cleared(cols: nat, rows: nat): Grid {
    Grid(cols, rows, BlankLines(cols, rows), 0, 0)
  }

  /** Move to the start of the next line, scrolling at the bottom. */
  function NextLine(g: Grid): (g1: Grid)
    requires Proper(g)
    ensures Proper(g1)
  {
    if g.row + 1 < g.rows then g.(col := 0, row := g.row + 1)
    else g.(col := 0, cells := g.cells[1..] + [BlankLine(g.cols)])
  }

  function Stamp(g: Grid, ch: u8): (g1: Grid)
    requires Proper(g) && g.col < g.cols
    ensures Proper(g1)
  {
    g.(cells := g.cells[g.row := g.cells[g.row][g.col := Glyph(ch)]], col := g.col + 1)
  }

  /** One character typed: newline, carriage return, or a glyph, wrapping only when the next
      glyph no longer fits. */
  function Typed(g: Grid, ch: u8): (g1: Grid)
    requires Proper(g)
    ensures Proper(g1) && g1.cols == g.cols && g1.rows == g.rows
  {
    if ch == LF then NextLine(g)
    else if ch == CR then g.(col := 0)
    else Stamp(if g.col >= g.cols then NextLine(g) else g, ch)
  }

  function TypedAll(g: Grid, s: seq<u8>): (g1: Grid)
    requires Proper(g)
    ensures Proper(g1) && g1.cols == g.cols && g1.rows == g.rows
  {
    if s == [] then g else Typed(TypedAll(g, s[..|s| - 1]), s[|s| - 1])
  }

  // ---- The transcript --------------------------------------------------------------

  /** Everything ever typed, on a sheet without end: the last line is the one being written. */
  datatype Transcript = Transcript(cols: nat, lines: seq<Line>, col: nat)

  ghost predicate Sheet(t: Transcript) {
    && 1 <= t.cols && t.lines != [] && t.col <= t.cols
    && forall i :: 0 <= i < |t.lines| ==> |t.lines[i]| == t.cols
  }

  function Feed(t: Transcript): Transcript { t.(lines := t.lines + [BlankLine(t.cols)], col := 0) }

  function Write(t: Transcript, ch: u8): Transcript
    requires Sheet(t)
  {
    if ch == LF then Feed(t)
    else if ch == CR then t.(col := 0)
    else Mark(if t.col >= t.cols then Feed(t) else t, ch)
  }

  lemma WriteKeepsSheet(t: Transcript, ch: u8)
    requires Sheet(t)
    ensures Sheet(Write(t, ch)) && Write(t, ch).cols == t.cols
  {
  }

  function WriteAll(t: Transcript, s: seq<u8>): (t1: Transcript)
    requires Sheet(t)
    ensures Sheet(t1) && t1.cols == t.cols
  {
    if s == [] then t else
    var t0 := WriteAll(t, s[..|s| - 1]);
    WriteKeepsSheet(t0, s[|s| - 1]);
    Write(t0, s[|s| - 1])
  }

  function NewSheet(cols: nat): Transcript { Transcript(cols, [BlankLine(cols)], 0) }

  /** The grid shows the last `rows` lines of the transcript, or all of it above blank lines. */
  function Window(t: Transcript, rows: nat): (g: Grid)
    requires Sheet(t) && 1 <= rows
    ensures Proper(g)
  {
    var n := |t.lines|;
    if n <= rows then Grid(t.cols, rows, t.lines + BlankLines(t.cols, rows - n), t.col, n - 1)
    else Grid(t.cols, rows, t.lines[n - rows..], t.col, rows - 1)
  }

  lemma WindowFeeds(t: Transcript, rows: nat)
    requires Sheet(t) && 1 <= rows
    ensures Sheet(Feed(t)) && NextLine(Window(t, rows)) == Window(Feed(t), rows)
  {
    var n := |t.lines|;
    var g, g1 := NextLine(Window(t, rows)), Window(Feed(t), rows);
    assert |g.cells| == |g1.cells|;
    forall r | 0 <= r < rows ensures g.cells[r] == g1.cells[r] {}
  }

  /** A glyph on the line being written. */
  function Mark(t: Transcript, ch: u8): Transcript
    requires Sheet(t) && t.col < t.cols
  {
    var n := |t.lines| - 1;
    t.(lines := t.lines[n := t.lines[n][t.col := Glyph(ch)]], col := t.col + 1)
  }

  lemma WindowMarks(t: Transcript, rows: nat, ch: u8)
    requires Sheet(t) && 1 <= rows && t.col < t.cols
    ensures Sheet(Mark(t, ch)) && Stamp(Window(t, rows), ch) == Window(Mark(t, ch), rows)
  {
    var g, g1 := Stamp(Window(t, rows), ch), Window(Mark(t, ch), rows);
    assert |g.cells| == |g1.cells|;
    forall r | 0 <= r < rows ensures g.cells[r] == g1.cells[r] {}
  }

  lemma WindowWrites(t: Transcript, rows: nat, ch: u8)
    requires Sheet(t) && 1 <= rows
    ensures Sheet(Write(t, ch)) && Typed(Window(t, rows), ch) == Window(Write(t, ch), rows)
  {
    hide Window, NextLine, Stamp;
    WindowFeeds(t, rows);
    WindowCursor(t, rows);
    if ch != LF && ch != CR {
      WindowMarks(if t.col >= t.cols then Feed(t) else t, rows, ch);
    }
  }

  lemma WindowCursor(t: Transcript, rows: nat)
    requires Sheet(t) && 1 <= rows
    ensures Window(t, rows).cols == t.cols && Window(t, rows).col == t.col
    ensures Window(t, rows).(col := 0) == Window(t.(col := 0), rows)
  {
  }

  /** The console is a window on the transcript, whatever is typed. */
  lemma {:induction false} GridIsWindow(cols: nat, rows: nat, s: seq<u8>)
    requires 1 <= cols && 1 <= rows
    ensures TypedAll(Cleared(cols, rows), s) == Window(WriteAll(NewSheet(cols), s), rows)
  {
    if s == [] {
      assert Cleared(cols, rows).cells == Window(NewSheet(cols), rows).cells;
    } else {
      GridIsWindow(cols, rows, s[..|s| - 1]);
      WindowWrites(WriteAll(NewSheet(cols), s[..|s| - 1]), rows, s[|s| - 1]);
    }
  }

  /** A carriage return in front of each newline. */
  function CrLf(s: seq<u8>): seq<u8> {
    if s == [] then []
    else CrLf(s[..|s| - 1]) + if s[|s| - 1] == LF then [CR, LF] else [s[|s| - 1]]
  }

  lemma {:induction false} TypedAllAppend(g: Grid, a: seq<u8>, b: seq<u8>)
    requires Proper(g)
    ensures TypedAll(g, a + b) == TypedAll(TypedAll(g, a), b)
  {
    if b == [] {
      assert a + b == a;
    } else {
      TypedAllAppend(g, a, b[..|b| - 1]);
      assert (a + b)[..|a + b| - 1] == a + b[..|b| - 1];
    }
  }

  /** The added carriage returns change nothing on the screen. */
  lemma {:induction false} CrLfIsInvisible(g: Grid, s: seq<u8>)
    requires Proper(g)
    ensures TypedAll(g, CrLf(s)) == TypedAll(g, s)
  {
    if s != [] {
      var rest, ch := s[..|s| - 1], s[|s| - 1];
      CrLfIsInvisible(g, rest);
      var g1 := TypedAll(g, rest);
      var tail := if ch == LF then [CR, LF] else [ch];
      TypedAllAppend(g, CrLf(rest), tail);
      assert TypedAll(g1, [ch]) == Typed(g1, ch) by { assert [ch][..0] == []; }
      if ch == LF {
        assert [CR, LF][..1] == [CR] && [CR][..0] == [];
        assert TypedAll(g1, [CR, LF]) == Typed(TypedAll(g1, [CR]), LF);
        assert TypedAll(g1, [CR]) == Typed(g1, CR);
      }
    }
  }

  // ---- What typing does to the transcript ---------------------------------------------------------

  /** Text that still fits stands on the line being written from the cursor on, even if it fills the line
      to its end; nothing else moves. */
  lemma {:induction false} LineFills(t: Transcript, s: seq<u8>)
    requires Sheet(t) && t.col + |s| <= t.cols && forall k :: 0 <= k < |s| ==> s[k] != 10 && s[k] != 13
    ensures
      var t1, n := WriteAll(t, s), |t.lines| - 1;
      && t1.cols == t.cols && |t1.lines| == |t.lines| && t1.col == t.col + |s|
      && t1.lines[..n] == t.lines[..n]
      && forall j :: 0 <= j < t.cols ==>
           t1.lines[n][j] == if t.col <= j < t.col + |s| then Glyph(s[j - t.col]) else t.lines[n][j]
  {
    if s != [] {
      LineFills(t, s[..|s| - 1]);
    }
  }

  /** On a full line the next character starts a line of its own; a newline starts a blank one, a carriage
      return goes back to the start of the line without erasing it. */
  lemma LineEnds(t: Transcript, ch: u8)
    requires Sheet(t)
    ensures ch != 10 && ch != 13 && t.col == t.cols ==>
      && Write(t, ch).col == 1 && |Write(t, ch).lines| == |t.lines| + 1 && Write(t, ch).lines[..|t.lines|] == t.lines
      && forall j :: 0 <= j < t.cols ==> Write(t, ch).lines[|t.lines|][j] == if j == 0 then Glyph(ch) else Blank
    ensures ch == 10 ==>
      && Write(t, ch).col == 0 && |Write(t, ch).lines| == |t.lines| + 1 && Write(t, ch).lines[..|t.lines|] == t.lines
      && forall j :: 0 <= j < t.cols ==> Write(t, ch).lines[|t.lines|][j] == Blank
    ensures ch == 13 ==> Write(t, ch).lines == t.lines && Write(t, ch).col == 0
  {
  }
}
