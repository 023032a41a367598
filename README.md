# Atomic chess rules engine

A Dafny model of `ChessVar`, the rules engine for atomic chess. The game lives
on an 8×8 board, rank 8 on row 0 and file `a` on column 0. White moves first.
Every capture sets off an explosion that empties the 3×3 block around the
target square, the capturing piece included. A game ends when a king is
destroyed.

The modules follow the program's structure:

- `Pieces` (pieces.dfy): colours, kinds and squares. It also holds the
  one-character board encoding (`.` for empty, upper case for White, lower
  case for Black) as a proved bijection.
- `Coordinates` (coordinates.dfy): parsing of algebraic coordinates such as
  `e2` into a row and a column.
- `Boards` (board.dfy): the board as a sequence of rows, single-square
  update, and the "is this piece anywhere" scan. It also holds the starting
  layout.
- `Legality` (legality.dfy): the path test, the piece rules, and the legality
  gate `ValidMove`. It only reads the board.
- `Execution` (execution.dfy): the move executor as a function of the game
  before the move. The steps are relocation, the explosion (in the source's
  loop order, including its intermediate result), promotion, the king
  rescan and the turn flip. This module also holds the invariant a game keeps.
- `Chess` (chessvar.dfy): the class `ChessVar`. Its fields `board`, `turn`
  and `state` are updated in place by its methods, and each method is
  proved against the functions above.
- `Scenarios` (scenarios.dfy): concrete positions such as the opening,
  knight moves, a promotion and a capture that explodes a king.

### The explosion's recorded result

In atomic chess the side whose king explodes loses. Line 185 of
`ChessVar.py` records that side as the winner instead: `BLACK_WON` when the
exploded king is Black. The rescan on lines 216-219 always
replaces that value. The model keeps both steps:

- `Execution.ExplosionLabel` and `Execution.ExplodeSteps` reproduce the
  intermediate value exactly, and `Execution.ExplosionLabelInverted` proves
  it is the inverted one.
- `Execution.ApplyOutcome` proves that after every successful move the final
  result is the one the remaining kings give, whatever the explosion
  recorded.

The model follows the code.

## Model

| member | source | states |
|---|---|---|
| Coordinates.PositionIndex | ChessVar.py:26-39 | a coordinate parses exactly when it is two characters, a file letter `a`-`h` then a rank digit `1`-`8`; the result is on the board, its column is the letter's index and its row plus the rank is 8 |
| Coordinates.AlgebraicRoundTrip | ChessVar.py:26-39 | every on-board square has an algebraic name that parses back to that square |
| Coordinates.PositionIndexRoundTrip | ChessVar.py:26-39 | a coordinate that parses is exactly the algebraic name of the square it parses to |
| Coordinates.ColumnIndex | ChessVar.py:10-11 | the index of a file letter is in range and names that letter |
| Chess.ChessVar.constructor | ChessVar.py:4-11 | a new game has the standard layout, White to move, the result unfinished, and satisfies the game invariant |
| Chess.ChessVar.InitializeBoard | ChessVar.py:13-24 | the board built file by file is the standard layout on every square |
| Boards.InitialSquare | ChessVar.py:13-24 | the starting layout: rows 2-5 empty, White on rows 6-7 and Black on rows 0-1, pawns exactly on rows 1 and 6, kings exactly on e1 and e8 |
| Boards.InitialKings | ChessVar.py:13-24 | the starting layout has exactly one king per side, White's on e1 and Black's on e8 |
| Boards.Put | ChessVar.py:170-171 | a single-square write changes that square and no other |
| Boards.HasPiece | ChessVar.py:216-218 | the scan finds a piece exactly when some row and column of the board hold it |
| Boards.HasPieceAt | ChessVar.py:216-218 | the row-by-row scan finds a piece exactly when some on-board square holds it |
| Chess.ChessVar.ClearPath | ChessVar.py:41-57 | stepping from one square toward the other answers true exactly when every square strictly between them is empty |
| Legality.PathIsClear | ChessVar.py:41-57 | the path test the sliders share: every square strictly between the two is empty, so adjacent or identical squares always have a clear path |
| Legality.PathIsClearSymmetric | ChessVar.py:41-57 | the path test gives the same answer in both directions |
| Legality.PawnMove | ChessVar.py:59-85 | an accepted pawn move changes the row by one or two and the column by at most one, along a file or a diagonal |
| Legality.PawnMovePatterns | ChessVar.py:59-85 | a pawn move is exactly a step forward onto an empty square, or a double step from the starting rank over and onto empty squares, or a diagonal step forward onto an opposing piece |
| Legality.PawnMoveShape | ChessVar.py:59-85 | a pawn never stays or retreats, moves at most one file, and captures exactly when it changes file, never capturing its own colour |
| Legality.RookMove | ChessVar.py:87-94 | an accepted rook move keeps its rank or its file and has a clear path |
| Legality.BishopMove | ChessVar.py:106-113 | an accepted bishop move runs along a diagonal with a clear path, so the bishop stays on its square colour |
| Legality.QueenMove | ChessVar.py:115-117 | an accepted queen move runs along a rank, file or diagonal with a clear path |
| Legality.QueenMoveIsSlide | ChessVar.py:87-117 | the queen moves exactly along a shared rank, file or diagonal with a clear path |
| Legality.KnightMove | ChessVar.py:96-104 | an accepted knight move leaves every rank, file and diagonal through its square and lands on the other square colour |
| Legality.KnightMoveDistance | ChessVar.py:96-104 | a knight move is exactly a displacement whose squared length is 5 |
| Legality.KingMove | ChessVar.py:119-124 | the king rule accepts exactly the squares within one step, the null move included |
| Legality.MovesSymmetric | ChessVar.py:87-124 | the rook, bishop, queen, knight and king rules give the same answer with the two squares swapped |
| Legality.PieceMove | ChessVar.py:147-161 | the handler chosen by piece kind; every piece but the knight moves along a rank, file or diagonal, and the knight never does |
| Legality.ValidMove | ChessVar.py:126-162 | an accepted move has two parsable coordinates, starts from a piece of the side to move, does not land on that side's piece, and is not a null move |
| Legality.ValidMoveExactly | ChessVar.py:126-162 | the gate accepts exactly the parsable moves of a piece of the side to move, not onto its own piece, that the piece's rule accepts |
| Legality.NullMoveRejected | ChessVar.py:138-145 | a move from a square to itself is always refused, although the king's rule on its own accepts it |
| Pieces.Glyph | ChessVar.py:16-23 | the board character is `.` exactly for an empty square, upper case exactly for White and lower case exactly for Black |
| Pieces.GlyphRoundTrip | ChessVar.py:17-23 | every square's character reads back as that square |
| Pieces.ParseGlyphInverse | ChessVar.py:17-23 | a character that reads as a square is that square's character, so the encoding is a bijection |
| Pieces.Color.Opponent | ChessVar.py:222 | the turn flip always gives the other side |
| Chess.ChessVar.MovePiece | ChessVar.py:164-171 | the board becomes the relocation of the piece; turn and result are unchanged |
| Execution.Relocate | ChessVar.py:164-171 | the origin becomes empty, the target holds the moved piece, and every other square is unchanged |
| Chess.ChessVar.ExplodeCapture | ChessVar.py:173-186 | the loop leaves the board and result of the nine-visit fold; every on-board block square is empty, everything else is unchanged, and the turn is untouched |
| Execution.ExplodeSteps | ChessVar.py:178-186 | the explosion after its first k of nine visits, in the loop's order, never touches a square outside the 3×3 block |
| Execution.Visit | ChessVar.py:180-186 | one visit empties its on-board square and nothing else; it records the removed piece's label exactly when that piece is a king, and keeps the recorded result otherwise |
| Execution.ExplosionLabel | ChessVar.py:184-185 | the label recorded for an exploded king is a finished result, BLACK_WON exactly for the Black king |
| Execution.ExplodeStepsNext | ChessVar.py:178-186 | the loop's visit at offsets (dr, dc) is fold step number (dr+1)*3+(dc+1) |
| Execution.ExplodeStepsBoard | ChessVar.py:178-186 | after k visits, exactly the visited on-board squares are empty and the rest keep their pieces |
| Execution.ExplodeClearsBlock | ChessVar.py:173-186 | the explosion empties exactly the on-board squares of the 3×3 block |
| Execution.ExplodeStepsState | ChessVar.py:184-185 | the explosion either keeps the recorded result or sets the label of a king that stood in the block |
| Execution.ExplosionLabelInverted | ChessVar.py:185 | with the Black king in the block and the White king outside it, the explosion records BLACK_WON, the losing side |
| Execution.ExplosionLabelWhite | ChessVar.py:185 | with the White king in the block and the Black king outside it, the explosion records WHITE_WON, the losing side |
| Execution.LabelPersists | ChessVar.py:178-186 | once the block's only king, of colour c, has been visited, c's label stays recorded for the rest of the explosion |
| Execution.Outcome | ChessVar.py:216-219 | the result the kings give: unfinished exactly when both kings remain, BLACK_WON exactly when White's king is gone |
| Execution.Rescan | ChessVar.py:215-219 | whenever a king is missing the rescan overrides any recorded result with the kings' outcome; with both kings present it keeps the recorded result |
| Chess.ChessVar.RecordOutcome | ChessVar.py:215-222 | the rescan sets the result from the kings on the unchanged board, and the turn passes exactly when the game goes on |
| Execution.Promote | ChessVar.py:210-213 | a pawn on its far rank becomes a queen of its colour on the target square; every other square is unchanged |
| Execution.Execute | ChessVar.py:199-222 | a move that passed the gate leaves every square away from the origin and the target's block unchanged, and passes the turn exactly when the game goes on |
| Execution.Apply | ChessVar.py:188-224 | a move attempt succeeds exactly when the game is unfinished and the move is valid; a refused attempt changes nothing |
| Chess.ChessVar.MakeMove | ChessVar.py:188-224 | the new board, turn and result equal `Apply` of the old game; success is exactly "unfinished and valid"; a refusal changes nothing; the turn flips exactly when the game goes on; the game invariant is kept |
| Execution.ApplyTurn | ChessVar.py:221-222 | after a successful move the turn passes to the opponent exactly when the result is still unfinished |
| Execution.ApplyCapture | ChessVar.py:204-208 | a capture empties the origin and every on-board square of the block around the target; every other square keeps its piece |
| Execution.ApplyQuiet | ChessVar.py:204-213 | a quiet move empties the origin and puts the piece on the target, as a queen of its colour when a pawn reaches its far rank; nothing else changes |
| Execution.ExecuteKeepsKingsUnique | ChessVar.py:199-213 | a successful move never leaves two kings of one side |
| Execution.ExplodedKingGone | ChessVar.py:181-186 | a king caught in the explosion is no longer anywhere on the board |
| Execution.ExplosionRescan | ChessVar.py:206-219 | after an explosion in an unfinished game the rescan's result is the kings' outcome |
| Execution.ApplyOutcome | ChessVar.py:215-219 | after every successful move the result is the one the remaining kings give: the rescan alone decides it |
| Execution.ApplyPreservesValid | ChessVar.py:188-224 | every move attempt keeps the game invariant: a proper board, at most one king a side, the result read off the kings |
| Chess.ChessVar.GetGameState | ChessVar.py:226-229 | the reported result is always the one the kings on the board give |
| Scenarios.OpeningDoubleStep | ChessVar.py:74-79 | from the starting position e2-e4 is valid and moves the pawn; Black is to move |
| Scenarios.KnightOpenings | ChessVar.py:96-104 | from the starting position b1-a3 and b1-c3 are valid and b1-b3 is not |
| Scenarios.WrongSideRejected | ChessVar.py:141-145 | White may not move a Black pawn, nor capture its own pawn |
| Scenarios.GameOverRefuses | ChessVar.py:191-193 | once the game is won every move is refused and nothing changes |
| Scenarios.PromotionOnLastRank | ChessVar.py:210-213 | a White pawn stepping from e7 to e8 becomes a White queen |
| Scenarios.CaptureIsLegal | ChessVar.py:87-94 | a rook on e1 may take a knight on e5 over empty squares |
| Scenarios.CaptureBoard | ChessVar.py:204-208 | after the rook's capture on e5 the block around e5 and e1 are empty, White's king remains and the Black king is gone |
| Scenarios.CaptureExecutes | ChessVar.py:204-222 | executing e1-e5 next to the Black king empties e1, e5 and d6, leaves White's king, records WHITE_WON and keeps the turn with White |
| Scenarios.CaptureExplodesKing | ChessVar.py:204-219 | the rook's capture next to the Black king empties e1, e5 and the king's square, White has won, and the turn stays with White |

## Left out

- `print_board`, the `print` calls and the interactive `__main__` loop are input and output, so they are not modelled.
- `str.isdigit` accepts non-ASCII digits. The model only recognises `0`-`9`, so non-ASCII digits are not modelled.
- Position arguments: `clear_path`, `move_piece`, `explode_capture` and the non-pawn piece rules are given parsed positions (`Pos`). The source re-parses strings that `valid_move` has already parsed successfully.
- Chess.ChessVar.ClearPath: requires its two squares to share a rank, file or diagonal. On other inputs the source's walk leaves the line between them: it returns False at the first occupied square it meets, or it runs off the board and raises `IndexError` (negative indices wrap around first). Its only callers, `rook_move` and `bishop_move`, never pass such inputs.
- Legality.ValidMove: the final `return False` for an unknown piece letter (line 162) cannot happen once kinds are a closed datatype.
- Coordinates.ColumnIndex: stands for both the `_columns` list and the `_columns_indexes` dictionary.
- Aliasing of the board's rows: rows are values here, not shared lists.
- Chess.ChessVar.MakeMove: requires the game invariant `Valid()`, which the constructor establishes and every move keeps. It is not a condition the source checks.
- Chess.ChessVar.GetGameState: requires the same invariant `Valid()`, so that it can promise the result is the kings' outcome. The source's getter has no precondition.
- Check, castling, en passant and draws do not exist in the source.
