/**
 * The move executor as a function of the game before the move: relocation,
 * the 3x3 explosion on a capture, promotion on a quiet pawn move, the
 * king rescan that decides the result, and the turn flip.
 */
module Execution {
  import opened Pieces
  import opened Coordinates
  import opened Boards
  import opened Legality

  datatype GameState = Unfinished | WhiteWon | BlackWon

  /** The whole mutable aggregate: board, side to move and result. */
  datatype Game = Game(board: Board, turn: Color, state: GameState)

  /** The standing invariant of a game: a proper board, at most one king a side, a result read off the kings. */
  ghost predicate ValidGame(g: Game)
  {
    WellFormed(g.board) && KingsUnique(g.board) && g.state == Outcome(g.board)
  }

  /** The piece moves from `f` to `t` and `f` is left empty. */
  function Relocate(b: Board, f: Pos, t: Pos): (r: Board)
    requires WellFormed(b) && InBounds(f) && InBounds(t)
    ensures WellFormed(r)
    ensures At(r, f) == Empty
    ensures f != t ==> At(r, t) == At(b, f)
    ensures forall q :: InBounds(q) && q != f && q != t ==> At(r, q) == At(b, q)
  {
    Put(Put(b, t, At(b, f)), f, Empty)
  }

  /** `p` lies in the 3x3 block centred on `center` (the centre included). */
  predicate InBlock(center: Pos, p: Pos)
  {
    Abs(p.row - center.row) <= 1 && Abs(p.col - center.col) <= 1
  }

  /** The `i`-th square the explosion visits: row offsets -1, 0, 1 outside, column offsets inside. */
  function BlockSquare(center: Pos, i: int): Pos
  {
    var dr := if i < 3 then -1 else if i < 6 then 0 else 1;
    Pos(center.row + dr, center.col + (i - 3 * (dr + 1)) - 1)
  }

  /** Where a square of the block comes in the explosion's visiting order. */
  function BlockIndex(center: Pos, p: Pos): int
  {
    (p.row - center.row + 1) * 3 + (p.col - center.col + 1)
  }

  lemma BlockSquareIndex(center: Pos, i: int)
    requires 0 <= i < 9
    ensures InBlock(center, BlockSquare(center, i))
    ensures BlockIndex(center, BlockSquare(center, i)) == i
  {
  }

  lemma BlockIndexSquare(center: Pos, p: Pos)
    requires InBlock(center, p)
    ensures 0 <= BlockIndex(center, p) < 9
    ensures BlockSquare(center, BlockIndex(center, p)) == p
  {
  }

  /** `p` is among the first `k` squares the explosion visits. */
  predicate Visited(center: Pos, k: int, p: Pos)
  {
    InBlock(center, p) && BlockIndex(center, p) < k
  }

  /**
   * The result the explosion records when it removes a king of colour `c`.
   * As written in the source this names the exploded king's OWN colour
   * (a Black king gives BLACK_WON); the rescan after the explosion always
   * overrides it (see ApplyOutcome).
   */
  function ExplosionLabel(c: Color): (r: GameState)
    ensures r != Unfinished
    ensures r == BlackWon <==> c == Black
  {
    if c == Black then BlackWon else WhiteWon
  }

  /**
   * The explosion after its first `k` of 9 visits, in the source's loop
   * order: an on-board, occupied square is emptied, and a king removed
   * there sets the recorded result.
   */
  function ExplodeSteps(b: Board, s: GameState, center: Pos, k: nat): (r: (Board, GameState))
    requires WellFormed(b) && k <= 9
    ensures WellFormed(r.0)
    ensures forall q :: InBounds(q) && !InBlock(center, q) ==> At(r.0, q) == At(b, q)
    decreases k
  {
    if k == 0 then (b, s)
    else Visit(ExplodeSteps(b, s, center, k - 1), BlockSquare(center, k - 1))
  }

  /**
   * One visit of the explosion: an on-board, occupied square is emptied,
   * and a king removed there sets the recorded result.
   */
  function Visit(current: (Board, GameState), p: Pos): (r: (Board, GameState))
    requires WellFormed(current.0)
    ensures WellFormed(r.0)
    ensures InBounds(p) ==> At(r.0, p) == Empty
    ensures forall q :: InBounds(q) && q != p ==> At(r.0, q) == At(current.0, q)
    ensures r.1 == if InBounds(p) && At(current.0, p).Occupied? && At(current.0, p).kind == King
      then ExplosionLabel(At(current.0, p).color) else current.1
  {
    if InBounds(p) && At(current.0, p) != Empty then
      var piece := At(current.0, p);
      (Put(current.0, p, Empty), if piece.kind == King then ExplosionLabel(piece.color) else current.1)
    else current
  }

  /** The explosion state after `k` visits followed by one more visit is the state after `k + 1` visits. */
  lemma ExplodeStepsNext(b: Board, s: GameState, center: Pos, k: nat, current: (Board, GameState), dr: int, dc: int)
    requires -1 <= dr <= 1 && -1 <= dc <= 1 && k == (dr + 1) * 3 + (dc + 1)
    requires WellFormed(b) && current == ExplodeSteps(b, s, center, k)
    ensures ExplodeSteps(b, s, center, k + 1) == Visit(current, Pos(center.row + dr, center.col + dc))
  {
  }

  /** After `k` visits exactly the visited squares are empty and every other square is untouched. */
  lemma {:induction false} ExplodeStepsBoard(b: Board, s: GameState, center: Pos, k: nat)
    requires WellFormed(b) && k <= 9
    ensures forall p :: InBounds(p) ==>
      At(ExplodeSteps(b, s, center, k).0, p) == if Visited(center, k, p) then Empty else At(b, p)
  {
    if k > 0 {
      ExplodeStepsBoard(b, s, center, k - 1);
      var prev := ExplodeSteps(b, s, center, k - 1);
      var sq := BlockSquare(center, k - 1);
      BlockSquareIndex(center, k - 1);
      forall p | InBounds(p)
        ensures At(ExplodeSteps(b, s, center, k).0, p) == if Visited(center, k, p) then Empty else At(b, p)
      {
        if InBlock(center, p) {
          BlockIndexSquare(center, p);
        }
        assert Visited(center, k, p) <==> Visited(center, k - 1, p) || p == sq;
      }
    }
  }

  /** Some on-board square of the block around `center` holds the king of colour `c`. */
  ghost predicate KingInBlock(b: Board, center: Pos, c: Color)
    requires WellFormed(b)
  {
    exists p :: InBounds(p) && InBlock(center, p) && At(b, p) == Occupied(c, King)
  }

  /** The explosion changes the recorded result only by naming a king that stood in the block. */
  lemma {:induction false} ExplodeStepsState(b: Board, s: GameState, center: Pos, k: nat)
    requires WellFormed(b) && k <= 9
    ensures var st := ExplodeSteps(b, s, center, k).1;
      st == s
      || (st == ExplosionLabel(White) && KingInBlock(b, center, White))
      || (st == ExplosionLabel(Black) && KingInBlock(b, center, Black))
  {
    if k > 0 {
      ExplodeStepsState(b, s, center, k - 1);
      var prev := ExplodeSteps(b, s, center, k - 1);
      var p := BlockSquare(center, k - 1);
      BlockSquareIndex(center, k - 1);
      if InBounds(p) && At(prev.0, p) != Empty && At(prev.0, p).kind == King {
        ExplodeStepsBoard(b, s, center, k - 1);
        assert At(prev.0, p) == At(b, p);
      }
    }
  }

  /** Every on-board square of the 3x3 block becomes empty; every other square keeps its piece. */
  lemma ExplodeClearsBlock(b: Board, s: GameState, center: Pos)
    requires WellFormed(b)
    ensures forall p :: InBounds(p) ==>
      At(ExplodeSteps(b, s, center, 9).0, p) == if InBlock(center, p) then Empty else At(b, p)
  {
    ExplodeStepsBoard(b, s, center, 9);
    forall p | InBounds(p) && InBlock(center, p) ensures Visited(center, 9, p) {
      BlockIndexSquare(center, p);
    }
  }

  /**
   * The inverted label: when the block holds the Black king and not the
   * White one, the explosion records BLACK_WON, the exploded side.
   */
  lemma ExplosionLabelInverted(b: Board, s: GameState, center: Pos)
    requires WellFormed(b)
    requires KingInBlock(b, center, Black) && !KingInBlock(b, center, White)
    ensures ExplodeSteps(b, s, center, 9).1 == BlackWon
  {
    var p :| InBounds(p) && InBlock(center, p) && At(b, p) == Occupied(Black, King);
    BlockIndexSquare(center, p);
    LabelPersists(b, s, center, 9, p, Black);
  }

  /**
   * The other branch of the same label: when the block holds the White
   * king and not the Black one, the explosion records WHITE_WON.
   */
  lemma ExplosionLabelWhite(b: Board, s: GameState, center: Pos)
    requires WellFormed(b)
    requires KingInBlock(b, center, White) && !KingInBlock(b, center, Black)
    ensures ExplodeSteps(b, s, center, 9).1 == WhiteWon
  {
    var p :| InBounds(p) && InBlock(center, p) && At(b, p) == Occupied(White, King);
    BlockIndexSquare(center, p);
    LabelPersists(b, s, center, 9, p, White);
  }

  lemma ExplodeStepsUnvisited(b: Board, s: GameState, center: Pos, k: nat, p: Pos)
    requires WellFormed(b) && k <= 9 && InBounds(p) && !Visited(center, k, p)
    ensures At(ExplodeSteps(b, s, center, k).0, p) == At(b, p)
  {
  }

  /** Once the only king in the block, of colour `c`, has been visited, its label stays recorded. */
  lemma {:induction false} LabelPersists(b: Board, s: GameState, center: Pos, k: nat, king: Pos, c: Color)
    requires WellFormed(b) && k <= 9 && !KingInBlock(b, center, c.Opponent())
    requires InBounds(king) && Visited(center, k, king) && At(b, king) == Occupied(c, King)
    ensures ExplodeSteps(b, s, center, k).1 == ExplosionLabel(c)
  {
    BlockIndexSquare(center, king);
    var p := BlockSquare(center, k - 1);
    BlockSquareIndex(center, k - 1);
    var prev := ExplodeSteps(b, s, center, k - 1);
    assert ExplodeSteps(b, s, center, k) == Visit(prev, p);
    if InBounds(p) {
      ExplodeStepsUnvisited(b, s, center, k - 1, p);
      assert At(prev.0, p) == At(b, p);
      assert At(b, p) != Occupied(c.Opponent(), King);
    }
    if BlockIndex(center, king) < k - 1 {
      LabelPersists(b, s, center, k - 1, king, c);
    } else {
      assert p == king;
    }
  }

  /** The result as the remaining kings decide it; White's king is checked first. */
  function Outcome(b: Board): (r: GameState)
    ensures r == Unfinished <==> HasPiece(b, Occupied(White, King)) && HasPiece(b, Occupied(Black, King))
    ensures r == BlackWon <==> !HasPiece(b, Occupied(White, King))
  {
    if !HasPiece(b, Occupied(White, King)) then BlackWon
    else if !HasPiece(b, Occupied(Black, King)) then WhiteWon
    else Unfinished
  }

  /** The source's rescan after a move: a missing king overrides the recorded result `s`. */
  function Rescan(b: Board, s: GameState): (r: GameState)
    ensures !(HasPiece(b, Occupied(White, King)) && HasPiece(b, Occupied(Black, King))) ==> r == Outcome(b)
    ensures HasPiece(b, Occupied(White, King)) && HasPiece(b, Occupied(Black, King)) ==> r == s
  {
    if !HasPiece(b, Occupied(White, King)) then BlackWon
    else if !HasPiece(b, Occupied(Black, King)) then WhiteWon
    else s
  }

  /** A quiet pawn move onto the far rank of its colour promotes. */
  predicate Promotes(moving: Square, t: Pos)
  {
    moving.Occupied? && moving.kind == Pawn
    && ((moving.color == White && t.row == 0) || (moving.color == Black && t.row == 7))
  }

  /** Promotion to a queen of the pawn's colour, in place on `t`. */
  function Promote(b: Board, t: Pos, moving: Square): (r: Board)
    requires WellFormed(b) && InBounds(t)
    ensures WellFormed(r)
    ensures At(r, t) == if Promotes(moving, t) then Occupied(moving.color, Queen) else At(b, t)
    ensures forall q :: InBounds(q) && q != t ==> At(r, q) == At(b, q)
  {
    if Promotes(moving, t) then Put(b, t, Occupied(moving.color, Queen)) else b
  }

  /** The board, recorded result and turn after a move that passed both gates. */
  function Execute(g: Game, f: Pos, t: Pos): (r: Game)
    requires WellFormed(g.board) && InBounds(f) && InBounds(t)
    ensures WellFormed(r.board)
    ensures forall q :: InBounds(q) && q != f && !InBlock(t, q) ==> At(r.board, q) == At(g.board, q)
    ensures r.turn == if r.state == Unfinished then g.turn.Opponent() else g.turn
  {
    var target, moving := At(g.board, t), At(g.board, f);
    var moved := Relocate(g.board, f, t);
    var after :=
      if target != Empty then ExplodeSteps(moved, g.state, t, 9)
      else (Promote(moved, t, moving), g.state);
    var state := Rescan(after.0, after.1);
    Game(after.0, if state == Unfinished then g.turn.Opponent() else g.turn, state)
  }

  /**
   * A move attempt: refused while the game is over or when the move is
   * not valid, with nothing changed; otherwise executed.
   */
  function Apply(g: Game, from: string, to: string): (r: (Game, bool))
    requires WellFormed(g.board)
    ensures WellFormed(r.0.board)
    ensures !r.1 ==> r.0 == g
    ensures r.1 <==> g.state == Unfinished && ValidMove(g.board, g.turn, from, to)
  {
    if g.state != Unfinished then (g, false)
    else if !ValidMove(g.board, g.turn, from, to) then (g, false)
    else (Execute(g, PositionIndex(from).value, PositionIndex(to).value), true)
  }

  /** After a successful move the turn passes to the opponent exactly when the game goes on. */
  lemma ApplyTurn(g: Game, from: string, to: string)
    requires WellFormed(g.board) && Apply(g, from, to).1
    ensures var g' := Apply(g, from, to).0;
      (g'.state == Unfinished ==> g'.turn == g.turn.Opponent())
      && (g'.state != Unfinished ==> g'.turn == g.turn)
  {
  }

  /**
   * A capture empties every on-board square of the 3x3 block around the
   * target (the capturer included) and the square the capturer left;
   * every other square keeps its piece.
   */
  lemma ApplyCapture(g: Game, from: string, to: string)
    requires WellFormed(g.board) && Apply(g, from, to).1
    requires At(g.board, PositionIndex(to).value) != Empty
    ensures var f, t, g' := PositionIndex(from).value, PositionIndex(to).value, Apply(g, from, to).0;
      forall p :: InBounds(p) ==>
        At(g'.board, p) == if InBlock(t, p) || p == f then Empty else At(g.board, p)
  {
    var f, t := PositionIndex(from).value, PositionIndex(to).value;
    ExplodeClearsBlock(Relocate(g.board, f, t), g.state, t);
  }

  /**
   * A quiet move carries the piece from `f` to `t`, promoting a pawn that
   * reaches its far rank to a queen of its colour; nothing else changes.
   */
  lemma ApplyQuiet(g: Game, from: string, to: string)
    requires WellFormed(g.board) && Apply(g, from, to).1
    requires At(g.board, PositionIndex(to).value) == Empty
    ensures var f, t, g' := PositionIndex(from).value, PositionIndex(to).value, Apply(g, from, to).0;
      var moving := At(g.board, f);
      At(g'.board, f) == Empty
      && At(g'.board, t) == (if Promotes(moving, t) then Occupied(moving.color, Queen) else moving)
      && forall p :: InBounds(p) && p != f && p != t ==> At(g'.board, p) == At(g.board, p)
  {
  }

  lemma AtMostOneShrinks(b: Board, b': Board, sq: Square)
    requires WellFormed(b) && WellFormed(b') && AtMostOne(b, sq)
    requires forall p :: InBounds(p) && At(b', p) == sq ==> At(b, p) == sq
    ensures AtMostOne(b', sq)
  {
  }

  lemma RelocateKeepsKingsUnique(b: Board, f: Pos, t: Pos)
    requires WellFormed(b) && InBounds(f) && InBounds(t) && f != t && KingsUnique(b)
    ensures KingsUnique(Relocate(b, f, t))
  {
  }

  /** A successful move leaves at most one king of each side. */
  lemma ExecuteKeepsKingsUnique(g: Game, f: Pos, t: Pos)
    requires WellFormed(g.board) && InBounds(f) && InBounds(t) && f != t && KingsUnique(g.board)
    ensures KingsUnique(Execute(g, f, t).board)
  {
    var moved := Relocate(g.board, f, t);
    RelocateKeepsKingsUnique(g.board, f, t);
    var b' := Execute(g, f, t).board;
    if At(g.board, t) != Empty {
      ExplodeClearsBlock(moved, g.state, t);
    }
    AtMostOneShrinks(moved, b', Occupied(White, King));
    AtMostOneShrinks(moved, b', Occupied(Black, King));
  }

  /** An exploded king was its side's only king, so after the explosion that side has none. */
  lemma ExplodedKingGone(b: Board, s: GameState, center: Pos, c: Color)
    requires WellFormed(b) && AtMostOne(b, Occupied(c, King)) && KingInBlock(b, center, c)
    ensures !HasPiece(ExplodeSteps(b, s, center, 9).0, Occupied(c, King))
  {
    var king :| InBounds(king) && InBlock(center, king) && At(b, king) == Occupied(c, King);
    var after := ExplodeSteps(b, s, center, 9).0;
    ExplodeClearsBlock(b, s, center);
    forall p | InBounds(p) ensures At(after, p) != Occupied(c, King) {
    }
    HasPieceAt(after, Occupied(c, King));
  }

  /** After an explosion in an unfinished game the rescan gives the kings' outcome. */
  lemma ExplosionRescan(b: Board, center: Pos)
    requires WellFormed(b) && KingsUnique(b)
    ensures var after := ExplodeSteps(b, Unfinished, center, 9);
      Rescan(after.0, after.1) == Outcome(after.0)
  {
    ExplodeStepsState(b, Unfinished, center, 9);
    if KingInBlock(b, center, White) {
      ExplodedKingGone(b, Unfinished, center, White);
    }
    if KingInBlock(b, center, Black) {
      ExplodedKingGone(b, Unfinished, center, Black);
    }
  }

  /**
   * The result after a successful move is decided by the rescan alone:
   * whatever the explosion recorded, the final state is the one the
   * remaining kings give.
   */
  lemma ApplyOutcome(g: Game, from: string, to: string)
    requires WellFormed(g.board) && KingsUnique(g.board) && Apply(g, from, to).1
    ensures Apply(g, from, to).0.state == Outcome(Apply(g, from, to).0.board)
  {
    var f, t := PositionIndex(from).value, PositionIndex(to).value;
    if At(g.board, t) != Empty {
      RelocateKeepsKingsUnique(g.board, f, t);
      ExplosionRescan(Relocate(g.board, f, t), t);
    }
  }

  /** A move attempt, successful or not, keeps the game's invariant. */
  lemma ApplyPreservesValid(g: Game, from: string, to: string)
    requires ValidGame(g)
    ensures ValidGame(Apply(g, from, to).0)
  {
    if Apply(g, from, to).1 {
      ExecuteKeepsKingsUnique(g, PositionIndex(from).value, PositionIndex(to).value);
      ApplyOutcome(g, from, to);
    }
  }
}
