/**
 * Algebraic coordinates. A square is written as a file letter 'a'..'h'
 * followed by a rank digit '1'..'8'; internally it is a (row, column) pair
 * with rank 8 at row 0 and file 'a' at column 0.
 */
module Coordinates {
  import opened Options

  datatype Pos = Pos(row: int, col: int)

  predicate InBounds(p: Pos) { 0 <= p.row < 8 && 0 <= p.col < 8 }

  /** The file letters, in column order. */
  const Columns: string := "abcdefgh"

  /** An ASCII decimal digit (non-ASCII digits are not modelled). */
  predicate IsDigit(ch: char) { '0' <= ch <= '9' }

  function DigitValue(ch: char): (d: int)
    requires IsDigit(ch)
    ensures 0 <= d <= 9
  {
    ch as int - '0' as int
  }

  /** The column of a file letter: the index of the letter in `Columns`. */
  function ColumnIndex(ch: char): (i: int)
    requires ch in Columns
    ensures 0 <= i < 8 && Columns[i] == ch
  {
    ch as int - 'a' as int
  }

  /**
   * Parses algebraic text into a square. Text of the wrong length, an
   * unknown file letter or a non-digit rank is refused; so is a digit
   * that yields a row outside the board ('0' gives row 8, '9' row -1).
   */
  function PositionIndex(s: string): (r: Option<Pos>)
    ensures r.Some? <==> |s| == 2 && 'a' <= s[0] <= 'h' && '1' <= s[1] <= '8'
    ensures r.Some? ==> InBounds(r.value)
    ensures r.Some? ==> Columns[r.value.col] == s[0] && r.value.row + DigitValue(s[1]) == 8
  {
    if |s| != 2 || s[0] !in Columns || !IsDigit(s[1]) then None
    else
      var col := ColumnIndex(s[0]);
      var row := 8 - DigitValue(s[1]);
      if !(0 <= col < 8 && 0 <= row < 8) then None
      else Some(Pos(row, col))
  }

  /** The algebraic name of an on-board square (the inverse of `PositionIndex`). */
  function Algebraic(p: Pos): (s: string)
    requires InBounds(p)
    ensures |s| == 2
  {
    [Columns[p.col], (('0' as int) + 8 - p.row) as char]
  }

  /** Naming a square and parsing the name gives the square back. */
  lemma AlgebraicRoundTrip(p: Pos)
    requires InBounds(p)
    ensures PositionIndex(Algebraic(p)) == Some(p)
  {
  }

  /** Parsing succeeds only on the name of the square it returns, so distinct texts name distinct squares. */
  lemma PositionIndexRoundTrip(s: string)
    requires PositionIndex(s).Some?
    ensures Algebraic(PositionIndex(s).value) == s
  {
  }
}
