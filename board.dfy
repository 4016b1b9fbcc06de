/** Spaces, the nine-cell board, and the board's two display forms. */
module Boards {
  import opened Prelude
  import opened Marks
  import opened Errors

  /** A validated cell index, row-major: 0 is top-left, 8 is bottom-right. */
  type Space = v: u8 | v <= 8

  /** `Space::try_from(u8)`: only 0..8 are spaces. */
  function TrySpace(v: u8): (r: Result<Space>)
    ensures r.Ok? <==> v <= 8
    ensures r.Ok? ==> r.value == v
    ensures r.Err? ==> r.error == InvalidSpace
  {
    if v > 8 then Err(InvalidSpace) else Ok(v)
  }

  /** The contents of a board: exactly nine marks. */
  type Cells = c: seq<Mark> | |c| == 9 witness [Blank, Blank, Blank, Blank, Blank, Blank, Blank, Blank, Blank]

  const BlankCells: Cells := [Blank, Blank, Blank, Blank, Blank, Blank, Blank, Blank, Blank]

  /** The board of the engine: nine marks in a fixed array, overwritten one cell at a time. */
  class Board {
    const spaces: array<Mark>

    ghost predicate Valid() {
      spaces.Length == 9
    }

    function Cells(): Cells
      reads spaces
      requires Valid()
    {
      spaces[..]
    }

    /** `Board::new`: every cell Blank. */
    constructor ()
      ensures Valid() && fresh(spaces)
      ensures Cells() == BlankCells
    {
      spaces := new Mark[9](_ => Blank);
    }

    /** A copy of a board with the given contents (the derived `Clone`). */
    constructor Copy(c: Cells)
      ensures Valid() && fresh(spaces)
      ensures Cells() == c
    {
      spaces := new Mark[9](i requires 0 <= i < 9 => c[i]);
    }

    /** `Board::mark`: overwrite one cell, occupied or not; it never fails. */
    method Mark(s: Space, m: Mark) returns (r: Status)
      requires Valid()
      modifies spaces
      ensures Valid() && r == Success
      ensures Get(s) == Ok(m)
      ensures forall t: Space :: t != s ==> Get(t) == old(Get(t))
      ensures Cells() == old(Cells())[s := m]
    {
      spaces[s] := m;
      r := Success;
    }

    /** `Board::get`: every space has a mark, so the lookup never fails. */
    function Get(s: Space): (r: Result<Mark>)
      reads spaces
      requires Valid()
      ensures r.Ok?
      ensures r.value == Cells()[s]
    {
      Ok(spaces[s])
    }

    /** `Display for Board`: write each row of three cells, with a separator line before every row but the first. */
    method Display() returns (s: string)
      requires Valid()
      ensures s == Render(Cells())
    {
      s := "";
      for i := 0 to 3
        invariant s == RowsWritten(Cells(), i)
      {
        if i > 0 {
          s := s + Separator;
        }
        s := s + RowText(Cells(), i);
      }
      assert RowsWritten(Cells(), 2) == RowText(Cells(), 0) + Separator + RowText(Cells(), 1);
    }
  }

  /** `Board::to_display_array`: each cell's label, or nothing for an unplayed cell. */
  function DisplayArray(c: Cells): (r: seq<Option<string>>)
    ensures |r| == 9
    ensures forall i | 0 <= i < 9 :: r[i].None? <==> c[i] == Blank
    ensures forall i | 0 <= i < 9 && r[i].Some? :: r[i].value == Glyph(c[i]) && r[i].value != " "
  {
    seq(9, i requires 0 <= i < 9 => if c[i] == Blank then None else Some(Glyph(c[i])))
  }

  const Separator: string := "---+---+---\n"

  /** One row of the text grid, `" a | b | c "` and a newline. */
  function RowText(c: Cells, row: nat): (s: string)
    requires row < 3
    ensures |s| == 12
  {
    " " + Glyph(c[3 * row]) + " | " + Glyph(c[3 * row + 1]) + " | " + Glyph(c[3 * row + 2]) + " \n"
  }

  /** `Display for Board`: the three rows with a separator line between each two. */
  function Render(c: Cells): (s: string)
    ensures |s| == 60
  {
    RowText(c, 0) + Separator + RowText(c, 1) + Separator + RowText(c, 2)
  }

  /** What the display loop has written after its first `n` rows. */
  function RowsWritten(c: Cells, n: nat): (s: string)
    requires n <= 3
    ensures |s| == 24 * n - (if n == 0 then 0 else 12)
  {
    if n == 0 then "" else RowsWritten(c, n - 1) + (if n > 1 then Separator else "") + RowText(c, n - 1)
  }

  /** Where cell `i` is printed in the rendering. */
  function CellPosition(i: nat): nat
  {
    24 * (i / 3) + 4 * (i % 3) + 1
  }

  /** A row, character by character. */
  lemma RowChars(c: Cells, row: nat)
    requires row < 3
    ensures RowText(c, row) == [' ', Glyph(c[3 * row])[0], ' ', '|', ' ', Glyph(c[3 * row + 1])[0], ' ', '|', ' ', Glyph(c[3 * row + 2])[0], ' ', '\n']
  {
    var a, b, d := Glyph(c[3 * row]), Glyph(c[3 * row + 1]), Glyph(c[3 * row + 2]);
    assert a == [a[0]] && b == [b[0]] && d == [d[0]];
  }

  /** Five twelve-character lines laid end to end can be cut apart again. */
  lemma SliceLines(a: string, b: string, d: string, e: string, f: string)
    requires |a| == |b| == |d| == |e| == |f| == 12
    ensures var s := a + b + d + e + f;
      s[0..12] == a && s[12..24] == b && s[24..36] == d && s[36..48] == e && s[48..60] == f
  {
    var ab := a + b;
    assert ab[0..12] == a && ab[12..24] == b;
    var abd := ab + d;
    assert abd[0..24] == ab && abd[24..36] == d;
    var abde := abd + e;
    assert abde[0..36] == abd && abde[36..48] == e;
    var s := abde + f;
    assert s[0..48] == abde && s[48..60] == f;
  }

  /** Cell `j` of a row is printed at column `4 * j + 1` of its line. */
  lemma RowCellAt(c: Cells, row: nat, j: nat)
    requires row < 3 && j < 3
    ensures RowText(c, row)[4 * j + 1] == Glyph(c[3 * row + j])[0]
  {
    RowChars(c, row);
  }

  /** A row's only newline ends it. */
  lemma RowNewlineAt(c: Cells, row: nat, col: nat)
    requires row < 3 && col < 12
    ensures RowText(c, row)[col] == '\n' <==> col == 11
  {
    RowChars(c, row);
  }

  /** The separator line's only newline ends it. */
  lemma SeparatorNewlineAt(col: nat)
    requires col < 12
    ensures Separator[col] == '\n' <==> col == 11
  {
  }

  /** Character `col` of line `line` of three rows with a separator line between each two. */
  lemma LineChar(s: string, a: string, b: string, d: string, line: nat, col: nat)
    requires |a| == |b| == |d| == 12 && line < 5 && col < 12
    requires s == a + Separator + b + Separator + d
    ensures s[12 * line + col] ==
      if line == 0 then a[col] else if line == 2 then b[col] else if line == 4 then d[col] else Separator[col]
  {
    SliceLines(a, Separator, b, Separator, d);
    if line == 0 {
      assert s[col] == s[0..12][col];
    } else if line == 1 {
      assert s[12 + col] == s[12..24][col];
    } else if line == 2 {
      assert s[24 + col] == s[24..36][col];
    } else if line == 3 {
      assert s[36 + col] == s[36..48][col];
    } else {
      assert s[48 + col] == s[48..60][col];
    }
  }

  /**
   * The rendering is five lines of eleven characters and a newline: character `col`
   * of line `line` is a newline exactly when it is the twelfth; lines 1 and 3 are separators.
   */
  lemma RenderLines(c: Cells, line: nat, col: nat)
    requires line < 5 && col < 12
    ensures Render(c)[12 * line + col] == '\n' <==> col == 11
    ensures line % 2 == 1 ==> Render(c)[12 * line + col] == Separator[col]
  {
    RowNewlineAt(c, 0, col);
    RowNewlineAt(c, 1, col);
    RowNewlineAt(c, 2, col);
    SeparatorNewlineAt(col);
    LineChar(Render(c), RowText(c, 0), RowText(c, 1), RowText(c, 2), line, col);
  }

  /** Cell `j` of row `row` is printed at column `4 * j + 1` of line `2 * row`. */
  lemma RenderCellAt(c: Cells, row: nat, j: nat)
    requires row < 3 && j < 3
    ensures Render(c)[24 * row + 4 * j + 1] == Glyph(c[3 * row + j])[0]
  {
    RowCellAt(c, row, j);
    var a, b, d := RowText(c, 0), RowText(c, 1), RowText(c, 2);
    if row == 0 {
      LineChar(Render(c), a, b, d, 0, 4 * j + 1);
    } else if row == 1 {
      LineChar(Render(c), a, b, d, 2, 4 * j + 1);
    } else {
      LineChar(Render(c), a, b, d, 4, 4 * j + 1);
    }
  }

  /** Each cell's mark can be read back from its position in the rendering. */
  lemma RenderCell(c: Cells, i: nat)
    requires i < 9
    ensures CellPosition(i) < 60 && Render(c)[CellPosition(i)] == Glyph(c[i])[0]
  {
    var row, j := i / 3, i % 3;
    assert i == 3 * row + j && row < 3;
    RenderCellAt(c, row, j);
  }

  /** Two boards that print alike are the same board. */
  lemma RenderInjective(a: Cells, b: Cells)
    requires Render(a) == Render(b)
    ensures a == b
  {
    forall i | 0 <= i < 9
      ensures a[i] == b[i]
    {
      RenderCell(a, i);
      RenderCell(b, i);
      GlyphInjective(a[i], b[i]);
    }
  }

  /** The two display forms agree: a cell prints as its label, or as a space where it has none. */
  lemma DisplayMatchesRender(c: Cells, i: nat)
    requires i < 9
    ensures Render(c)[CellPosition(i)] == if DisplayArray(c)[i].None? then ' ' else DisplayArray(c)[i].value[0]
  {
    RenderCell(c, i);
  }

  /** The text of a row of three unplayed cells. */
  const BlankRow: string := "   |   |   \n"

  /** A new board prints as an empty three-by-three grid: blank rows between separator lines. */
  lemma BlankRender()
    ensures Render(BlankCells) == BlankRow + Separator + BlankRow + Separator + BlankRow
  {
    RowChars(BlankCells, 0);
    RowChars(BlankCells, 1);
    RowChars(BlankCells, 2);
  }
}
