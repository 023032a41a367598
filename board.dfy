/**
 * The 8x8 board as a value: row-major, row 0 is rank 8 (Black's back rank)
 * and row 7 is rank 1 (White's back rank).
 */
module Boards {
  import opened Pieces
  import opened Coordinates

  type Board = seq<seq<Square>>

  predicate WellFormed(b: Board)
  {
    |b| == 8 && forall r :: 0 <= r < 8 ==> |b[r]| == 8
  }

  function At(b: Board, p: Pos): Square
    requires WellFormed(b) && InBounds(p)
  {
    b[p.row][p.col]
  }

  /** The board with one square overwritten. */
  function Put(b: Board, p: Pos, sq: Square): (r: Board)
    requires WellFormed(b) && InBounds(p)
    ensures WellFormed(r)
    ensures At(r, p) == sq
    ensures forall q :: InBounds(q) && q != p ==> At(r, q) == At(b, q)
  {
    b[p.row := b[p.row][p.col := sq]]
  }

  /** Some row of the board contains `sq` (the source's `any(sq in row for row in board)`). */
  function HasPiece(b: Board, sq: Square): (found: bool)
    ensures found <==> exists r, c :: 0 <= r < |b| && 0 <= c < |b[r]| && b[r][c] == sq
  {
    exists r :: 0 <= r < |b| && sq in b[r]
  }

  lemma HasPieceAt(b: Board, sq: Square)
    requires WellFormed(b)
    ensures HasPiece(b, sq) <==> exists p :: InBounds(p) && At(b, p) == sq
  {
    if HasPiece(b, sq) {
      var r :| 0 <= r < |b| && sq in b[r];
      var c :| 0 <= c < |b[r]| && b[r][c] == sq;
      assert InBounds(Pos(r, c)) && At(b, Pos(r, c)) == sq;
    }
    if exists p :: InBounds(p) && At(b, p) == sq {
      var p :| InBounds(p) && At(b, p) == sq;
      assert sq in b[p.row];
    }
  }

  /** No two squares hold `sq`. */
  ghost predicate AtMostOne(b: Board, sq: Square)
    requires WellFormed(b)
  {
    forall p, q :: InBounds(p) && InBounds(q) && At(b, p) == sq && At(b, q) == sq ==> p == q
  }

  /** At most one king of each colour is on the board. */
  ghost predicate KingsUnique(b: Board)
    requires WellFormed(b)
  {
    AtMostOne(b, Occupied(White, King)) && AtMostOne(b, Occupied(Black, King))
  }

  /** The order of the pieces on both back ranks, file 'a' first. */
  const BackRank: seq<Kind> := [Rook, Knight, Bishop, Queen, King, Bishop, Knight, Rook]

  /** The standard starting position, square by square. */
  function InitialSquare(p: Pos): (sq: Square)
    requires InBounds(p)
    ensures sq == Empty <==> 2 <= p.row <= 5
    ensures sq.Occupied? ==> (sq.color == White <==> p.row >= 6)
    ensures sq.Occupied? ==> (sq.kind == Pawn <==> p.row == 1 || p.row == 6)
    ensures sq.Occupied? && sq.kind == King <==> p.col == 4 && (p.row == 0 || p.row == 7)
  {
    if p.row == 0 then Occupied(Black, BackRank[p.col])
    else if p.row == 1 then Occupied(Black, Pawn)
    else if p.row == 6 then Occupied(White, Pawn)
    else if p.row == 7 then Occupied(White, BackRank[p.col])
    else Empty
  }

  /** The starting position has exactly one king of each colour, on e1 and e8. */
  lemma InitialKings(b: Board)
    requires WellFormed(b)
    requires forall p :: InBounds(p) ==> At(b, p) == InitialSquare(p)
    ensures KingsUnique(b)
    ensures At(b, Pos(7, 4)) == Occupied(White, King) && At(b, Pos(0, 4)) == Occupied(Black, King)
    ensures HasPiece(b, Occupied(White, King)) && HasPiece(b, Occupied(Black, King))
  {
  }
}
