/**
 * Pieces of atomic chess. The source stores each square as one character:
 * '.' for an empty square, an upper-case letter for a White piece and the
 * same letter in lower case for a Black piece (P, R, N, B, Q, K). Here the
 * colour is an explicit field; `Glyph` and `ParseGlyph` are the documented
 * mapping between the two representations.
 */
module Pieces {
  import opened Options

  datatype Color = White | Black {
    /** The other side; used to flip the turn and to name a pawn's opponent. */
    function Opponent(): (c: Color)
      ensures c != this
    {
      if this == White then Black else White
    }
  }

  datatype Kind = Pawn | Rook | Knight | Bishop | Queen | King

  /** What one square holds: nothing, or a piece of some colour and kind. */
  datatype Square = Empty | Occupied(color: Color, kind: Kind)

  /** The square holds a piece of colour `c`. */
  predicate BelongsTo(sq: Square, c: Color) { sq.Occupied? && sq.color == c }

  predicate IsUpper(ch: char) { 'A' <= ch <= 'Z' }

  predicate IsLower(ch: char) { 'a' <= ch <= 'z' }

  /** The upper-case letter naming a kind of piece. */
  function Letter(k: Kind): (ch: char)
    ensures IsUpper(ch)
  {
    match k
    case Pawn => 'P'
    case Rook => 'R'
    case Knight => 'N'
    case Bishop => 'B'
    case Queen => 'Q'
    case King => 'K'
  }

  function ToLower(ch: char): char
    requires IsUpper(ch)
  {
    (ch as int - 'A' as int + 'a' as int) as char
  }

  /** The character the source's board holds for a square. */
  function Glyph(sq: Square): (ch: char)
    ensures ch == '.' <==> sq.Empty?
    ensures IsUpper(ch) <==> sq.Occupied? && sq.color == White
    ensures IsLower(ch) <==> sq.Occupied? && sq.color == Black
  {
    match sq
    case Empty => '.'
    case Occupied(White, k) => Letter(k)
    case Occupied(Black, k) => ToLower(Letter(k))
  }

  /** The square a board character stands for, if it is one of the thirteen glyphs. */
  function ParseGlyph(ch: char): Option<Square>
  {
    if ch == '.' then Some(Empty)
    else if IsUpper(ch) then
      (match KindOf(ch)
       case Some(k) => Some(Occupied(White, k))
       case None => None)
    else if IsLower(ch) then
      (match KindOf((ch as int - 'a' as int + 'A' as int) as char)
       case Some(k) => Some(Occupied(Black, k))
       case None => None)
    else None
  }

  function KindOf(ch: char): Option<Kind>
  {
    if ch == 'P' then Some(Pawn)
    else if ch == 'R' then Some(Rook)
    else if ch == 'N' then Some(Knight)
    else if ch == 'B' then Some(Bishop)
    else if ch == 'Q' then Some(Queen)
    else if ch == 'K' then Some(King)
    else None
  }

  /** Every square is written as a glyph that reads back as the same square. */
  lemma GlyphRoundTrip(sq: Square)
    ensures ParseGlyph(Glyph(sq)) == Some(sq)
  {
  }

  /** A glyph that parses is the one the parsed square is written as: the mapping is a bijection. */
  lemma ParseGlyphInverse(ch: char, sq: Square)
    requires ParseGlyph(ch) == Some(sq)
    ensures Glyph(sq) == ch
  {
  }
}
