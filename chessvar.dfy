/**
 * The game object: one board, the side to move and the result, updated in
 * place by `MakeMove`. Each method is proved against the functions of
 * Execution and Legality.
 */
module Chess {
  import opened Pieces
  import opened Coordinates
  import opened Boards
  import opened Legality
  import opened Execution

  class ChessVar {
    var board: Board
    var turn: Color
    var state: GameState

    /** The aggregate as a value. */
    function Snapshot(): Game
      reads this
    {
      Game(board, turn, state)
    }

    ghost predicate Valid()
      reads this
    {
      ValidGame(Snapshot())
    }

    /** A new game: the standard layout, White to move, result unfinished. */
    constructor ()
      ensures Valid()
      ensures forall p :: InBounds(p) ==> At(board, p) == InitialSquare(p)
      ensures turn == White && state == Unfinished
    {
      var b := InitializeBoard();
      InitialKings(b);
      board := b;
      turn := White;
      state := Unfinished;
    }

    /** Builds the starting position: an empty board, then the four home rows file by file. */
    static method InitializeBoard() returns (b: Board)
      ensures WellFormed(b)
      ensures forall p :: InBounds(p) ==> At(b, p) == InitialSquare(p)
    {
      b := seq(8, _ => seq(8, _ => Empty));
      for i := 0 to 8
        invariant WellFormed(b)
        invariant forall p :: InBounds(p) ==> At(b, p) == if p.col < i then InitialSquare(p) else Empty
      {
        b := Put(b, Pos(0, i), Occupied(Black, BackRank[i]));
        b := Put(b, Pos(1, i), Occupied(Black, Pawn));
        b := Put(b, Pos(6, i), Occupied(White, Pawn));
        b := Put(b, Pos(7, i), Occupied(White, BackRank[i]));
      }
    }

    /**
     * Walks from `f` toward `t` one unit step at a time, both ends
     * excluded, and reports whether every square passed is empty.
     */
    method ClearPath(f: Pos, t: Pos) returns (clear: bool)
      requires WellFormed(board) && InBounds(f) && InBounds(t) && Aligned(f, t)
      ensures clear == PathIsClear(board, f, t)
    {
      var rowStep := if f.row == t.row then 0 else if t.row > f.row then 1 else -1;
      var colStep := if f.col == t.col then 0 else if t.col > f.col then 1 else -1;
      var currentRow, currentCol := f.row + rowStep, f.col + colStep;
      ghost var k := 1;
      while currentRow != t.row || currentCol != t.col
        invariant 1 <= k <= Max(Distance(f, t), 1)
        invariant Pos(currentRow, currentCol) == StepFrom(f, t, k)
        invariant forall j :: 0 < j < k ==> At(board, StepFrom(f, t, j)) == Empty
        decreases Distance(f, t) - k
      {
        if At(board, Pos(currentRow, currentCol)) != Empty {
          return false;
        }
        currentRow, currentCol := currentRow + rowStep, currentCol + colStep;
        k := k + 1;
      }
      return true;
    }

    /** Puts the piece on `f` onto `t` and empties `f`. */
    method MovePiece(f: Pos, t: Pos)
      requires WellFormed(board) && InBounds(f) && InBounds(t)
      modifies this
      ensures board == Relocate(old(board), f, t)
      ensures turn == old(turn) && state == old(state)
    {
      board := Put(board, t, At(board, f));
      board := Put(board, f, Empty);
    }

    /**
     * Empties every on-board square of the 3x3 block around `center`,
     * recording a result whenever a king is removed.
     */
    method ExplodeCapture(center: Pos)
      requires WellFormed(board) && InBounds(center)
      modifies this
      ensures (board, state) == ExplodeSteps(old(board), old(state), center, 9)
      ensures forall p :: InBounds(p) ==> At(board, p) == if InBlock(center, p) then Empty else At(old(board), p)
      ensures turn == old(turn)
    {
      ghost var b0, s0, k := board, state, 0;
      for dr := -1 to 2
        invariant turn == old(turn) && k == (dr + 1) * 3
        invariant (board, state) == ExplodeSteps(b0, s0, center, k)
      {
        for dc := -1 to 2
          invariant turn == old(turn) && k == (dr + 1) * 3 + (dc + 1)
          invariant (board, state) == ExplodeSteps(b0, s0, center, k)
        {
          var r, c := center.row + dr, center.col + dc;
          ghost var next := Visit((board, state), Pos(r, c));
          ExplodeStepsNext(b0, s0, center, k, (board, state), dr, dc);
          if 0 <= r < 8 && 0 <= c < 8 {
            var piece := At(board, Pos(r, c));
            if piece != Empty {
              if piece.kind == King {
                state := ExplosionLabel(piece.color);
              }
              board := Put(board, Pos(r, c), Empty);
            }
          }
          assert board == next.0 && state == next.1;
          k := k + 1;
        }
      }
      assert forall p :: InBounds(p) ==> At(board, p) == if InBlock(center, p) then Empty else At(b0, p) by {
        ExplodeClearsBlock(b0, s0, center);
      }
    }

    /**
     * One move attempt. Refused, with nothing changed, once the game is
     * over or when the move is not valid; otherwise the piece moves, a
     * capture explodes, a quiet pawn move to the far rank promotes, the
     * kings are rescanned for the result and, if the game goes on, the
     * turn passes.
     */
    method MakeMove(from: string, to: string) returns (ok: bool)
      requires Valid()
      modifies this
      ensures Valid()
      ensures (Snapshot(), ok) == Apply(old(Snapshot()), from, to)
      ensures ok <==> old(state) == Unfinished && ValidMove(old(board), old(turn), from, to)
      ensures !ok ==> board == old(board) && turn == old(turn) && state == old(state)
      ensures ok ==> turn == if state == Unfinished then old(turn).Opponent() else old(turn)
    {
      ghost var g := Snapshot();
      if state != Unfinished {
        return false;
      }
      if !ValidMove(board, turn, from, to) {
        return false;
      }
      var f, t := PositionIndex(from).value, PositionIndex(to).value;
      var target, moving := At(board, t), At(board, f);
      MovePiece(f, t);
      ghost var moved := board;
      if target != Empty {
        ExplodeCapture(t);
        assert (board, state) == ExplodeSteps(moved, g.state, t, 9);
      } else {
        if moving.Occupied? && moving.kind == Pawn {
          if (moving.color == White && t.row == 0) || (moving.color == Black && t.row == 7) {
            board := Put(board, t, Occupied(moving.color, Queen));
          }
        }
        assert board == Promote(moved, t, moving) && state == g.state;
      }
      ghost var after := (board, state);
      RecordOutcome();
      ok := true;
      assert Snapshot() == Execute(g, f, t);
      ApplyPreservesValid(g, from, to);
    }

    /**
     * The end of a move: a side without its king has lost (White checked
     * first), overriding any recorded result; while the game goes on the
     * turn passes to the opponent.
     */
    method RecordOutcome()
      modifies this
      ensures board == old(board)
      ensures state == Rescan(old(board), old(state))
      ensures turn == if state == Unfinished then old(turn).Opponent() else old(turn)
    {
      if !HasPiece(board, Occupied(White, King)) {
        state := BlackWon;
      } else if !HasPiece(board, Occupied(Black, King)) {
        state := WhiteWon;
      }
      if state == Unfinished {
        turn := turn.Opponent();
      }
    }

    /** The result of the game, which is always the one the kings on the board give. */
    function GetGameState(): (s: GameState)
      reads this
      requires Valid()
      ensures s == Outcome(board)
    {
      state
    }
  }
}
