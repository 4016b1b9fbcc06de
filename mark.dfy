/** The three values a board cell can hold, whose turn comes next, and how a mark is printed. */
module Marks {

  datatype Mark = X | O | Blank

  /** `Mark::default()`: an unplayed cell. */
  const DefaultMark: Mark := Blank

  /** The default mark is the unplayed one: it prints as a space, and X moves after it. */
  lemma DefaultUnplayed()
    ensures DefaultMark == Blank
    ensures Glyph(DefaultMark) == " "
    ensures Next(DefaultMark) == X
  {
  }

  /** `Mark::next`: X moves after O (and after Blank); O moves after X. */
  function Next(m: Mark): (r: Mark)
    ensures r != Blank
    ensures r == O <==> m == X
  {
    match m
    case Blank => X
    case O => X
    case X => O
  }

  /** Two calls of `next` give back a player's mark, and one call always changes it. */
  lemma NextAlternates(m: Mark)
    requires m != Blank
    ensures Next(m) != m
    ensures Next(Next(m)) == m
  {
  }

  /** `Display for Mark`: one character, a space for an unplayed cell. */
  function Glyph(m: Mark): (s: string)
    ensures |s| == 1
  {
    match m
    case X => "X"
    case O => "O"
    case Blank => " "
  }

  /** X prints as "X", O as "O" and an unplayed cell as a single space. */
  lemma GlyphText(m: Mark)
    ensures Glyph(m) == " " <==> m == Blank
    ensures Glyph(m) == "X" <==> m == X
    ensures Glyph(m) == "O" <==> m == O
  {
  }

  /** Distinct marks print as distinct characters, so the printed board determines the board. */
  lemma GlyphInjective(a: Mark, b: Mark)
    requires Glyph(a)[0] == Glyph(b)[0]
    ensures a == b
  {
  }
}
