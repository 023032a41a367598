/**
 * Move legality: the per-piece geometry rules, the path-clearance test the
 * sliding pieces share, and the turn / colour / self-capture gate.
 * All of these only read the board.
 */
module Legality {
  import opened Options
  import opened Pieces
  import opened Coordinates
  import opened Boards

  function Abs(x: int): nat { if x < 0 then -x else x }

  function Max(x: int, y: int): int { if x < y then y else x }

  /** Two squares on a common rank, file or diagonal: the only inputs the path test is defined on. */
  predicate Aligned(f: Pos, t: Pos)
  {
    f.row == t.row || f.col == t.col || Abs(t.row - f.row) == Abs(t.col - f.col)
  }

  /** The number of unit steps from `f` to `t` along their common line. */
  function Distance(f: Pos, t: Pos): nat
  {
    Max(Abs(t.row - f.row), Abs(t.col - f.col))
  }

  /** One coordinate after `k` unit steps from `a` toward `b` (a step of 0 when they agree). */
  function Advance(a: int, b: int, k: int): int
  {
    if a == b then a else if b > a then a + k else a - k
  }

  /** The square `k` unit steps from `f` toward `t`. */
  function StepFrom(f: Pos, t: Pos, k: int): Pos
  {
    Pos(Advance(f.row, t.row, k), Advance(f.col, t.col, k))
  }

  /**
   * Every square strictly between `f` and `t` is empty; adjacent and
   * identical squares have nothing between them.
   */
  function PathIsClear(b: Board, f: Pos, t: Pos): (clear: bool)
    requires WellFormed(b) && InBounds(f) && InBounds(t) && Aligned(f, t)
    ensures Distance(f, t) <= 1 ==> clear
  {
    forall k :: 0 < k < Distance(f, t) ==> At(b, StepFrom(f, t, k)) == Empty
  }

  /** Walking from `t` back to `f` visits the same squares. */
  lemma {:induction false} PathIsClearSymmetric(b: Board, f: Pos, t: Pos)
    requires WellFormed(b) && InBounds(f) && InBounds(t) && Aligned(f, t)
    ensures PathIsClear(b, f, t) == PathIsClear(b, t, f)
  {
    var n := Distance(f, t);
    assert Distance(t, f) == n;
    forall k | 0 < k < n
      ensures StepFrom(t, f, k) == StepFrom(f, t, n - k)
    {
    }
    if PathIsClear(b, f, t) {
      forall k | 0 < k < n ensures At(b, StepFrom(t, f, k)) == Empty {
        assert StepFrom(t, f, k) == StepFrom(f, t, n - k);
      }
    }
    if PathIsClear(b, t, f) {
      forall k | 0 < k < n ensures At(b, StepFrom(f, t, k)) == Empty {
        assert StepFrom(t, f, n - k) == StepFrom(f, t, k);
      }
    }
  }

  /** The pawn's colour as the source decides it: upper case is White, anything else Black. */
  function PawnColor(b: Board, f: Pos): Color
    requires WellFormed(b) && InBounds(f)
  {
    if At(b, f).Occupied? && At(b, f).color == White then White else Black
  }

  /** The row step a pawn of colour `c` advances by. */
  function Forward(c: Color): int { if c == White then -1 else 1 }

  /** The row a pawn of colour `c` starts on, the only one it may double-step from. */
  function StartRow(c: Color): int { if c == White then 6 else 1 }

  /**
   * The pawn rule. A White pawn (upper case in the source; every other
   * square, Empty included, takes the Black branch) moves toward row 0 and
   * starts on row 6; a Black pawn moves toward row 7 and starts on row 1.
   */
  function PawnMove(b: Board, f: Pos, t: Pos): (ok: bool)
    requires WellFormed(b) && InBounds(f) && InBounds(t)
    ensures ok ==> 1 <= Abs(t.row - f.row) <= 2 && Abs(t.col - f.col) <= 1
    ensures ok ==> Aligned(f, t)
  {
    var c := PawnColor(b, f);
    var direction, startRow, opponent := Forward(c), StartRow(c), c.Opponent();
    if t.col == f.col then
      (t.row == f.row + direction && At(b, t) == Empty)
      || (f.row == startRow && t.row == f.row + 2 * direction
          && At(b, Pos(f.row + direction, t.col)) == Empty && At(b, t) == Empty)
    else if Abs(t.col - f.col) == 1 && t.row == f.row + direction then
      At(b, t) != Empty && At(b, t).color == opponent
    else false
  }

  /**
   * A pawn move is one of exactly three patterns: a step forward onto an
   * empty square, a double step from the starting rank over an empty square
   * onto an empty square, or a diagonal step forward onto an opposing piece.
   */
  lemma PawnMovePatterns(b: Board, f: Pos, t: Pos)
    requires WellFormed(b) && InBounds(f) && InBounds(t)
    ensures var c, d := PawnColor(b, f), Forward(PawnColor(b, f));
      PawnMove(b, f, t) <==>
        (t == Pos(f.row + d, f.col) && At(b, t) == Empty)
        || (f.row == StartRow(c) && t == Pos(f.row + 2 * d, f.col)
            && At(b, Pos(f.row + d, f.col)) == Empty && At(b, t) == Empty)
        || (t.row == f.row + d && (t.col == f.col - 1 || t.col == f.col + 1)
            && BelongsTo(At(b, t), c.Opponent()))
  {
  }

  /**
   * Consequences of the pawn rule: a pawn never stays or retreats, moves
   * at most one file, and captures exactly when it changes file.
   */
  lemma PawnMoveShape(b: Board, f: Pos, t: Pos)
    requires WellFormed(b) && InBounds(f) && InBounds(t) && PawnMove(b, f, t)
    ensures PawnColor(b, f) == White ==> t.row < f.row
    ensures PawnColor(b, f) == Black ==> t.row > f.row
    ensures Abs(t.col - f.col) <= 1
    ensures At(b, t) == Empty <==> t.col == f.col
    ensures At(b, t) != Empty ==> At(b, t).color != PawnColor(b, f)
  {
  }

  /** The rook slides along its rank or file: one coordinate is kept, and the path is clear. */
  function RookMove(b: Board, f: Pos, t: Pos): (ok: bool)
    requires WellFormed(b) && InBounds(f) && InBounds(t)
    ensures ok ==> Aligned(f, t) && PathIsClear(b, f, t)
    ensures ok ==> f.row == t.row || f.col == t.col
  {
    if f.row == t.row || f.col == t.col then PathIsClear(b, f, t) else false
  }

  /** The knight jumps off every line through its square, always onto the other square colour. */
  function KnightMove(f: Pos, t: Pos): (ok: bool)
    ensures ok ==> !Aligned(f, t)
    ensures ok ==> (f.row + f.col) % 2 != (t.row + t.col) % 2
  {
    var rowDiff, colDiff := Abs(t.row - f.row), Abs(t.col - f.col);
    (rowDiff, colDiff) == (2, 1) || (rowDiff, colDiff) == (1, 2)
  }

  /** The bishop slides along a diagonal with a clear path, so it never changes square colour. */
  function BishopMove(b: Board, f: Pos, t: Pos): (ok: bool)
    requires WellFormed(b) && InBounds(f) && InBounds(t)
    ensures ok ==> Abs(t.row - f.row) == Abs(t.col - f.col) && PathIsClear(b, f, t)
    ensures ok ==> (f.row + f.col) % 2 == (t.row + t.col) % 2
  {
    if Abs(t.row - f.row) == Abs(t.col - f.col) then PathIsClear(b, f, t) else false
  }

  function QueenMove(b: Board, f: Pos, t: Pos): (ok: bool)
    requires WellFormed(b) && InBounds(f) && InBounds(t)
    ensures ok ==> Aligned(f, t) && PathIsClear(b, f, t)
  {
    RookMove(b, f, t) || BishopMove(b, f, t)
  }

  /** A king's move is exactly a step into the 3x3 block around it, the null move included. */
  function KingMove(f: Pos, t: Pos): (ok: bool)
    ensures ok <==> Distance(f, t) <= 1
  {
    Abs(t.row - f.row) <= 1 && Abs(t.col - f.col) <= 1
  }

  lemma SquareAtLeast(a: nat)
    requires a >= 3
    ensures a * a >= 9
  {
  }

  /** A knight's move is exactly a displacement of Euclidean length sqrt(5). */
  lemma KnightMoveDistance(f: Pos, t: Pos)
    ensures KnightMove(f, t) <==>
      (t.row - f.row) * (t.row - f.row) + (t.col - f.col) * (t.col - f.col) == 5
  {
    var a, c := Abs(t.row - f.row), Abs(t.col - f.col);
    assert (t.row - f.row) * (t.row - f.row) == a * a;
    assert (t.col - f.col) * (t.col - f.col) == c * c;
    if a >= 3 { SquareAtLeast(a); assert c * c >= 0; }
    else if c >= 3 { SquareAtLeast(c); assert a * a >= 0; }
  }

  /**
   * The queen moves exactly along a common rank, file or diagonal with
   * a clear path.
   */
  lemma QueenMoveIsSlide(b: Board, f: Pos, t: Pos)
    requires WellFormed(b) && InBounds(f) && InBounds(t)
    ensures QueenMove(b, f, t) <==> Aligned(f, t) && PathIsClear(b, f, t)
  {
  }

  /** The geometry of the sliders, the knight and the king does not depend on direction. */
  lemma MovesSymmetric(b: Board, f: Pos, t: Pos)
    requires WellFormed(b) && InBounds(f) && InBounds(t)
    ensures RookMove(b, f, t) == RookMove(b, t, f)
    ensures BishopMove(b, f, t) == BishopMove(b, t, f)
    ensures QueenMove(b, f, t) == QueenMove(b, t, f)
    ensures KnightMove(f, t) == KnightMove(t, f)
    ensures KingMove(f, t) == KingMove(t, f)
  {
    if Aligned(f, t) {
      PathIsClearSymmetric(b, f, t);
    }
  }

  /**
   * The rule for a kind of piece (the source's lookup from letter to
   * handler). Every piece but the knight moves along a rank, file or
   * diagonal; the knight never does.
   */
  function PieceMove(b: Board, k: Kind, f: Pos, t: Pos): (ok: bool)
    requires WellFormed(b) && InBounds(f) && InBounds(t)
    ensures ok ==> (k == Knight <==> !Aligned(f, t))
  {
    match k
    case Pawn => PawnMove(b, f, t)
    case Rook => RookMove(b, f, t)
    case Knight => KnightMove(f, t)
    case Bishop => BishopMove(b, f, t)
    case Queen => QueenMove(b, f, t)
    case King => KingMove(f, t)
  }

  /**
   * The legality gate: both coordinates parse, the source square holds a
   * piece of the side to move, the target does not hold a piece of that
   * side, and the piece's own rule accepts the move.
   */
  function ValidMove(b: Board, turn: Color, from: string, to: string): (ok: bool)
    requires WellFormed(b)
    ensures ok ==> PositionIndex(from).Some? && PositionIndex(to).Some?
    ensures ok ==> BelongsTo(At(b, PositionIndex(from).value), turn)
    ensures ok ==> !BelongsTo(At(b, PositionIndex(to).value), turn)
    ensures ok ==> PositionIndex(from) != PositionIndex(to)
  {
    match (PositionIndex(from), PositionIndex(to))
    case (Some(f), Some(t)) =>
      var piece, target := At(b, f), At(b, t);
      if piece == Empty then false
      else if piece.color != turn then false
      else if target.Occupied? && target.color == turn then false
      else PieceMove(b, piece.kind, f, t)
    case _ => false
  }

  /** ValidMove accepts exactly the in-turn, non-self-capturing moves its piece's rule accepts. */
  lemma ValidMoveExactly(b: Board, turn: Color, from: string, to: string)
    requires WellFormed(b)
    ensures ValidMove(b, turn, from, to) <==>
      PositionIndex(from).Some? && PositionIndex(to).Some? &&
      var f, t := PositionIndex(from).value, PositionIndex(to).value;
      BelongsTo(At(b, f), turn) && !BelongsTo(At(b, t), turn) &&
      PieceMove(b, At(b, f).kind, f, t)
  {
  }

  /** A move from a square to itself is never valid, although the king's rule alone accepts it. */
  lemma NullMoveRejected(b: Board, turn: Color, s: string)
    requires WellFormed(b)
    ensures !ValidMove(b, turn, s, s)
  {
  }
}
