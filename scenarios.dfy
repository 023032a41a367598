/** Concrete games from the standard starting position. */
module Scenarios {
  import opened Options
  import opened Pieces
  import opened Coordinates
  import opened Boards
  import opened Legality
  import opened Execution

  ghost predicate IsInitial(b: Board)
  {
    WellFormed(b) && forall p :: InBounds(p) ==> At(b, p) == InitialSquare(p)
  }

  /**
   * White opens e2-e4: the double step is legal, e2 empties, e4 holds the
   * White pawn, Black is to move and the game goes on.
   */
  lemma OpeningDoubleStep(b: Board)
    requires IsInitial(b)
    ensures var (g', ok) := Apply(Game(b, White, Unfinished), "e2", "e4");
      ok && At(g'.board, Pos(6, 4)) == Empty && At(g'.board, Pos(4, 4)) == Occupied(White, Pawn)
      && g'.turn == Black && g'.state == Unfinished
  {
    var e2, e4 := Pos(6, 4), Pos(4, 4);
    assert PositionIndex("e2") == Some(e2);
    assert PositionIndex("e4") == Some(e4);
    assert At(b, Pos(5, 4)) == Empty && At(b, e4) == Empty;
    assert ValidMove(b, White, "e2", "e4");
    var g' := Execute(Game(b, White, Unfinished), e2, e4);
    InitialKings(b);
    assert At(g'.board, Pos(7, 4)) == Occupied(White, King);
    assert At(g'.board, Pos(0, 4)) == Occupied(Black, King);
    HasPieceAt(g'.board, Occupied(White, King));
    HasPieceAt(g'.board, Occupied(Black, King));
  }

  /** The knight on b1 may go to a3 or c3 but not straight ahead to b3. */
  lemma KnightOpenings(b: Board)
    requires IsInitial(b)
    ensures !ValidMove(b, White, "b1", "b3")
    ensures ValidMove(b, White, "b1", "a3") && ValidMove(b, White, "b1", "c3")
  {
  }

  /** Black may not move first, and White may not capture its own pieces. */
  lemma WrongSideRejected(b: Board)
    requires IsInitial(b)
    ensures !ValidMove(b, White, "e7", "e5")
    ensures !ValidMove(b, White, "a1", "a2")
  {
  }

  /** Once the game is decided every further attempt is refused and changes nothing. */
  lemma GameOverRefuses(g: Game, from: string, to: string)
    requires WellFormed(g.board) && g.state != Unfinished
    ensures Apply(g, from, to) == (g, false)
  {
  }

  /** A White pawn on e7; the kings on a1 and h8. */
  function PromotionSetup(p: Pos): Square
  {
    if p == Pos(1, 4) then Occupied(White, Pawn)
    else if p == Pos(7, 0) then Occupied(White, King)
    else if p == Pos(0, 7) then Occupied(Black, King)
    else Empty
  }

  /** A White pawn on e7 stepping onto an empty e8 becomes a White queen. */
  lemma PromotionOnLastRank(b: Board)
    requires WellFormed(b) && forall p :: InBounds(p) ==> At(b, p) == PromotionSetup(p)
    ensures var (g', ok) := Apply(Game(b, White, Unfinished), "e7", "e8");
      ok && At(g'.board, Pos(0, 4)) == Occupied(White, Queen) && At(g'.board, Pos(1, 4)) == Empty
      && g'.turn == Black && g'.state == Unfinished
  {
    var e7, e8 := Pos(1, 4), Pos(0, 4);
    assert PositionIndex("e7") == Some(e7);
    assert PositionIndex("e8") == Some(e8);
    assert ValidMove(b, White, "e7", "e8");
    var g' := Execute(Game(b, White, Unfinished), e7, e8);
    assert At(g'.board, Pos(7, 0)) == Occupied(White, King);
    assert At(g'.board, Pos(0, 7)) == Occupied(Black, King);
    HasPieceAt(g'.board, Occupied(White, King));
    HasPieceAt(g'.board, Occupied(Black, King));
  }

  /** A White rook on e1 and king on a1; a Black knight on e5 and king on d6. */
  function CaptureSetup(p: Pos): Square
  {
    if p == Pos(7, 4) then Occupied(White, Rook)
    else if p == Pos(3, 4) then Occupied(Black, Knight)
    else if p == Pos(2, 3) then Occupied(Black, King)
    else if p == Pos(7, 0) then Occupied(White, King)
    else Empty
  }

  /** In that position the rook's capture e1-e5 is legal: e2, e3 and e4 are empty. */
  lemma CaptureIsLegal(b: Board)
    requires WellFormed(b) && forall p :: InBounds(p) ==> At(b, p) == CaptureSetup(p)
    ensures PositionIndex("e1") == Some(Pos(7, 4)) && PositionIndex("e5") == Some(Pos(3, 4))
    ensures ValidMove(b, White, "e1", "e5")
  {
  }

  /** After the rook's capture on e5 the block around e5 is empty, White's king remains and Black's is gone. */
  lemma CaptureBoard(b: Board)
    requires WellFormed(b) && forall p :: InBounds(p) ==> At(b, p) == CaptureSetup(p)
    ensures var after := ExplodeSteps(Relocate(b, Pos(7, 4), Pos(3, 4)), Unfinished, Pos(3, 4), 9).0;
      At(after, Pos(7, 4)) == Empty && At(after, Pos(3, 4)) == Empty
      && At(after, Pos(2, 3)) == Empty && At(after, Pos(7, 0)) == Occupied(White, King)
      && HasPiece(after, Occupied(White, King)) && !HasPiece(after, Occupied(Black, King))
    ensures var after := ExplodeSteps(Relocate(b, Pos(7, 4), Pos(3, 4)), Unfinished, Pos(3, 4), 9).0;
      forall p :: InBounds(p) && InBlock(Pos(3, 4), p) ==> At(after, p) == Empty
  {
    var moved := Relocate(b, Pos(7, 4), Pos(3, 4));
    var after := ExplodeSteps(moved, Unfinished, Pos(3, 4), 9).0;
    ExplodeClearsBlock(moved, Unfinished, Pos(3, 4));
    assert InBlock(Pos(3, 4), Pos(2, 3)) && InBlock(Pos(3, 4), Pos(3, 4));
    assert At(moved, Pos(7, 4)) == Empty && At(moved, Pos(7, 0)) == Occupied(White, King);
    forall p | InBounds(p) ensures At(after, p) != Occupied(Black, King) {
    }
    HasPieceAt(after, Occupied(White, King));
    HasPieceAt(after, Occupied(Black, King));
  }

  /** Executing e1-e5 in that position clears the block around e5 and leaves White the winner, still to move. */
  lemma CaptureExecutes(b: Board)
    requires WellFormed(b) && forall p :: InBounds(p) ==> At(b, p) == CaptureSetup(p)
    ensures var g' := Execute(Game(b, White, Unfinished), Pos(7, 4), Pos(3, 4));
      At(g'.board, Pos(7, 4)) == Empty && At(g'.board, Pos(3, 4)) == Empty
      && At(g'.board, Pos(2, 3)) == Empty && At(g'.board, Pos(7, 0)) == Occupied(White, King)
      && g'.state == WhiteWon && g'.turn == White
  {
    var f, t := Pos(7, 4), Pos(3, 4);
    var after := ExplodeSteps(Relocate(b, f, t), Unfinished, t, 9);
    CaptureBoard(b);
    var g' := Execute(Game(b, White, Unfinished), f, t);
    assert g'.board == after.0 && g'.state == Rescan(after.0, after.1);
  }

  /**
   * The rook takes the knight next to the Black king: the knight, the rook
   * and the king all go, White has won, and the turn stays with White.
   */
  lemma CaptureExplodesKing(b: Board)
    requires WellFormed(b) && forall p :: InBounds(p) ==> At(b, p) == CaptureSetup(p)
    ensures var (g', ok) := Apply(Game(b, White, Unfinished), "e1", "e5");
      ok && At(g'.board, Pos(7, 4)) == Empty && At(g'.board, Pos(3, 4)) == Empty
      && At(g'.board, Pos(2, 3)) == Empty && At(g'.board, Pos(7, 0)) == Occupied(White, King)
      && g'.state == WhiteWon && g'.turn == White
  {
    CaptureIsLegal(b);
    CaptureExecutes(b);
  }
}
