/**
 * ChessGame.java: a board, the side to move and the last move, changed only by `makeMove`.
 *
 * The engine is stated for ANY move generator `gen` of `pieceMoves`' signature; the generator of
 * this snapshot is `PieceMoves.PieceMoves`, which never produces a move (see the lemmas at the end).
 * `getPieces`/`getPosition` (called by the source, not defined by ChessBoard.java) are taken to
 * enumerate the occupied entries (position, piece) of the board.
 */
module ChessGames {
  import opened Wrappers
  import opened ChessPieces
  import opened ChessMoves
  import opened PieceMoves
  import opened ChessBoards

  /** A board's value: its entry list. */
  type Board = seq<Entry<ChessPiece>>

  function Opponent(c: TeamColor): TeamColor
  {
    if c == WHITE then BLACK else WHITE
  }

  /** findKingPosition: the key of the first entry that holds a king of colour `c`. */
  function FindKingPosition(b: Board, c: TeamColor): (r: Option<ChessPosition>)
    ensures r.None? <==> forall i :: 0 <= i < |b| ==> b[i].1 != Some(ChessPiece(c, KING))
    ensures r.Some? ==> exists i :: 0 <= i < |b| && b[i] == (r.value, Some(ChessPiece(c, KING)))
  {
    if b == [] then None
    else if b[0].1 == Some(ChessPiece(c, KING)) then Some(b[0].0)
    else
      var r := FindKingPosition(b[1..], c);
      assert r.Some? ==> exists i :: 1 <= i < |b| && b[i] == (r.value, Some(ChessPiece(c, KING)));
      r
  }

  /** Some piece not of colour `c` has a generated move that ends on `target`. */
  predicate Attacked(gen: MoveGenerator, b: Board, c: TeamColor, target: ChessPosition)
  {
    exists i | 0 <= i < |b| ::
      b[i].1.Some? && b[i].1.value.pieceColor != c &&
      exists m | m in gen(b[i].1.value, ToMap(b), b[i].0) :: m.endPosition == target
  }

  /** The private isInCheck(board, teamColor): false without a king, else whether the king's square is attacked. */
  predicate IsInCheckOn(gen: MoveGenerator, b: Board, c: TeamColor)
  {
    match FindKingPosition(b, c)
    case None => false
    case Some(k) => Attacked(gen, b, c, k)
  }

  /** The simulation on a clone: the piece is put at the end square, then the start square is set to null. */
  function Simulate(b: Board, m: ChessMove, piece: ChessPiece): Board
  {
    Put(Put(b, m.endPosition, Some(piece)), m.startPosition, None)
  }

  /** The candidates, in order, whose simulation leaves `piece`'s side out of check. */
  function LegalMoves(gen: MoveGenerator, b: Board, piece: ChessPiece, candidates: seq<ChessMove>): (r: seq<ChessMove>)
    ensures forall m :: m in r <==> m in candidates && !IsInCheckOn(gen, Simulate(b, m, piece), piece.pieceColor)
    ensures |r| <= |candidates|
  {
    if candidates == [] then []
    else
      var m := candidates[|candidates| - 1];
      var r := LegalMoves(gen, b, piece, candidates[..|candidates| - 1]);
      assert candidates == candidates[..|candidates| - 1] + [m];
      r + (if IsInCheckOn(gen, Simulate(b, m, piece), piece.pieceColor) then [] else [m])
  }

  /** Filtering one more candidate appends it exactly when its simulation leaves the mover out of check. */
  lemma LegalMovesStep(gen: MoveGenerator, b: Board, piece: ChessPiece, candidates: seq<ChessMove>, i: int)
    requires 0 <= i < |candidates|
    ensures LegalMoves(gen, b, piece, candidates[..i + 1]) ==
      LegalMoves(gen, b, piece, candidates[..i]) +
      (if IsInCheckOn(gen, Simulate(b, candidates[i], piece), piece.pieceColor) then [] else [candidates[i]])
  {
    assert candidates[..i + 1][..i] == candidates[..i];
  }

  /** validMoves: null on an empty square, otherwise the generated moves that pass the check test. */
  function ValidMovesOn(gen: MoveGenerator, b: Board, start: ChessPosition): (r: Option<seq<ChessMove>>)
    ensures r.None? <==> Get(b, start).None?
    ensures r.Some? ==> forall m :: m in r.value <==>
      m in gen(Get(b, start).value, ToMap(b), start) &&
      !IsInCheckOn(gen, Simulate(b, m, Get(b, start).value), Get(b, start).value.pieceColor)
  {
    match Get(b, start)
    case None => None
    case Some(piece) => Some(LegalMoves(gen, b, piece, gen(piece, ToMap(b), start)))
  }

  /** Some piece of colour `c` has a generated move whose simulation takes `c` out of check. */
  predicate HasEscape(gen: MoveGenerator, b: Board, c: TeamColor)
  {
    exists i | 0 <= i < |b| ::
      b[i].1.Some? && b[i].1.value.pieceColor == c &&
      exists m | m in gen(b[i].1.value, ToMap(b), b[i].0) :: !IsInCheckOn(gen, Simulate(b, m, b[i].1.value), c)
  }

  /** isInCheckmate: in check, and no simulated move escapes. */
  predicate IsInCheckmateOn(gen: MoveGenerator, b: Board, c: TeamColor)
  {
    IsInCheckOn(gen, b, c) && !HasEscape(gen, b, c)
  }

  /** isInStalemate: not in check, and no simulated move escapes. */
  predicate IsInStalemateOn(gen: MoveGenerator, b: Board, c: TeamColor)
  {
    !IsInCheckOn(gen, b, c) && !HasEscape(gen, b, c)
  }

  /** The three fields of a ChessGame, as a value. */
  datatype GameState = GameState(board: Board, teamTurn: TeamColor, lastMove: Option<ChessMove>)

  /** A new game: empty board (resetBoard is empty), white to move, no last move. */
  const NewGame: GameState := GameState([], WHITE, None)

  /** The reasons `makeMove` throws InvalidMoveException, in the order it tests them. */
  datatype InvalidMove = NoPieceAtStart | WrongTeam | NotAValidMove | LeavesKingInCheck
  {
    function Message(): string
    {
      match this
      case NoPieceAtStart => "No piece at start position."
      case WrongTeam => "Not the correct team's turn."
      case NotAValidMove => "Invalid move."
      case LeavesKingInCheck => "Move puts king in check."
    }
  }

  /** The square whose pawn an en-passant capture removes: the start row, the end column. */
  function EnPassantSquare(m: ChessMove): ChessPosition
  {
    ChessPosition(m.startPosition.row, m.endPosition.col)
  }

  /** The row on which an enemy pawn stands right after its two-row advance, seen from a mover of colour `c`. */
  function AdvancedPawnRow(c: TeamColor): int
  {
    if c == WHITE then 5 else 4
  }

  /** The row a pawn of colour `c` lands on when it captures en passant. */
  function EnPassantLandingRow(c: TeamColor): int
  {
    if c == WHITE then 6 else 3
  }

  /** The part of the en-passant test about the captured pawn and the last move. */
  predicate EnPassantVictim(b: Board, piece: ChessPiece, m: ChessMove, lastMove: Option<ChessMove>)
  {
    var captured := Get(b, EnPassantSquare(m));
    captured.Some? && captured.value.pieceType == PAWN && captured.value.pieceColor != piece.pieceColor &&
    lastMove.Some? &&
    lastMove.value.startPosition.row == (if piece.pieceColor == WHITE then 7 else 2) &&
    lastMove.value.endPosition.row == AdvancedPawnRow(piece.pieceColor) &&
    lastMove.value.endPosition.col == m.endPosition.col
  }

  /**
   * Which en-passant test the execution step runs: the source's, which fires when the mover ENDS on
   * the advanced pawn's row, or the corrected one, which fires when it lands one row beyond.
   */
  datatype EnPassantRule = AsWritten | Corrected

  /** The row the mover must end on for the en-passant test of `rule` to fire. */
  function CaptureRow(rule: EnPassantRule, c: TeamColor): int
  {
    match rule
    case AsWritten => AdvancedPawnRow(c)
    case Corrected => EnPassantLandingRow(c)
  }

  /** The en-passant test: a pawn ending on the capture row, beside an enemy pawn that just advanced two rows. */
  predicate EnPassantApplies(rule: EnPassantRule, b: Board, piece: ChessPiece, m: ChessMove, lastMove: Option<ChessMove>)
  {
    piece.pieceType == PAWN && m.endPosition.row == CaptureRow(rule, piece.pieceColor) &&
    EnPassantVictim(b, piece, m, lastMove)
  }

  /** The promotion step: a promotion piece replaces the moved piece on the end square. */
  function Promote(b: Board, piece: ChessPiece, m: ChessMove): Board
  {
    if m.promotionPiece.Some?
    then Put(b, m.endPosition, Some(ChessPiece(piece.pieceColor, m.promotionPiece.value)))
    else b
  }

  /** The en-passant step: the en-passant square is set to null when the test holds. */
  function CaptureEnPassant(rule: EnPassantRule, b: Board, piece: ChessPiece, m: ChessMove, lastMove: Option<ChessMove>): Board
  {
    if EnPassantApplies(rule, b, piece, m, lastMove) then Put(b, EnPassantSquare(m), None) else b
  }

  /** The undo of a self-checking move: the piece goes back to the start, the end square is set to null. */
  function Undo(b: Board, piece: ChessPiece, m: ChessMove): Board
  {
    Put(Put(b, m.startPosition, Some(piece)), m.endPosition, None)
  }

  /** The part of makeMove after validation: apply, promote, capture en passant, record, then undo or pass the turn. */
  function ExecuteMove(rule: EnPassantRule, gen: MoveGenerator, s: GameState, move: ChessMove, piece: ChessPiece): (GameState, Outcome<InvalidMove>)
  {
    var after := CaptureEnPassant(rule, Promote(Simulate(s.board, move, piece), piece, move), piece, move, s.lastMove);
    if IsInCheckOn(gen, after, piece.pieceColor) then
      (GameState(Undo(after, piece, move), s.teamTurn, Some(move)), Fail(LeavesKingInCheck))
    else
      (GameState(after, Opponent(s.teamTurn), Some(move)), Pass)
  }

  /** makeMove as a function of the old state, with the en-passant test of `rule`: the new state and whether (and why) it threw. */
  function ApplyMoveWith(rule: EnPassantRule, gen: MoveGenerator, s: GameState, move: ChessMove): (GameState, Outcome<InvalidMove>)
  {
    match Get(s.board, move.startPosition)
    case None => (s, Fail(NoPieceAtStart))
    case Some(piece) =>
      if piece.pieceColor != s.teamTurn then (s, Fail(WrongTeam))
      else if move !in ValidMovesOn(gen, s.board, move.startPosition).value then (s, Fail(NotAValidMove))
      else ExecuteMove(rule, gen, s, move, piece)
  }

  /** makeMove as the source writes it. */
  function ApplyMove(gen: MoveGenerator, s: GameState, move: ChessMove): (GameState, Outcome<InvalidMove>)
  {
    ApplyMoveWith(AsWritten, gen, s, move)
  }

  /** makeMove with the en-passant landing row corrected. */
  function ApplyMoveCorrected(gen: MoveGenerator, s: GameState, move: ChessMove): (GameState, Outcome<InvalidMove>)
  {
    ApplyMoveWith(Corrected, gen, s, move)
  }

  class ChessGame {
    /** The `pieceMoves` the game consults; the source's is `PieceMoves.PieceMoves`. */
    const gen: MoveGenerator
    var board: ChessBoard
    var teamTurn: TeamColor
    var lastMove: Option<ChessMove>

    ghost predicate Valid()
      reads this, board
    {
      board.Valid()
    }

    function State(): GameState
      reads this, board
    {
      GameState(board.board, teamTurn, lastMove)
    }

    /** A new game has an empty board (resetBoard does nothing), white to move and no last move. */
    constructor(gen: MoveGenerator)
      ensures Valid() && fresh(board) && this.gen == gen
      ensures State() == NewGame
    {
      this.gen := gen;
      board := new ChessBoard();
      teamTurn := WHITE;
      lastMove := None;
      new;
      board.ResetBoard();
    }

    function GetTeamTurn(): TeamColor
      reads this
    {
      teamTurn
    }

    method SetTeamTurn(team: TeamColor)
      modifies this
      ensures teamTurn == team && board == old(board) && lastMove == old(lastMove)
    {
      teamTurn := team;
    }

    function GetBoard(): ChessBoard
      reads this
    {
      board
    }

    method SetBoard(b: ChessBoard)
      modifies this
      ensures board == b && teamTurn == old(teamTurn) && lastMove == old(lastMove)
    {
      board := b;
    }

    /** The private isInCheck(board, teamColor) on a board object. */
    predicate IsInCheckOnBoard(b: ChessBoard, teamColor: TeamColor)
      reads b
    {
      IsInCheckOn(gen, b.board, teamColor)
    }

    predicate IsInCheck(teamColor: TeamColor)
      reads this, board
    {
      IsInCheckOn(gen, board.board, teamColor)
    }

    predicate IsInCheckmate(teamColor: TeamColor)
      reads this, board
    {
      IsInCheckmateOn(gen, board.board, teamColor)
    }

    predicate IsInStalemate(teamColor: TeamColor)
      reads this, board
    {
      IsInStalemateOn(gen, board.board, teamColor)
    }

    /**
     * validMoves: each candidate is tried on a fresh clone of the board; the game's own board
     * is never written (the method may modify nothing that existed before it ran).
     */
    method ValidMoves(startPosition: ChessPosition) returns (r: Option<seq<ChessMove>>)
      requires Valid()
      ensures r == ValidMovesOn(gen, board.board, startPosition)
    {
      var piece := board.GetPiece(startPosition);
      if piece.None? {
        return None;
      }
      var possibleMoves := gen(piece.value, board.Squares(), startPosition);
      var validMoves: seq<ChessMove> := [];
      var i := 0;
      while i < |possibleMoves|
        invariant 0 <= i <= |possibleMoves|
        invariant validMoves == LegalMoves(gen, board.board, piece.value, possibleMoves[..i])
      {
        var move := possibleMoves[i];
        var clonedBoard := board.Clone();
        clonedBoard.AddPiece(move.endPosition, piece);
        clonedBoard.AddPiece(move.startPosition, None);
        assert clonedBoard.board == Simulate(board.board, move, piece.value);
        LegalMovesStep(gen, board.board, piece.value, possibleMoves, i);
        if !IsInCheckOnBoard(clonedBoard, piece.value.pieceColor) {
          validMoves := validMoves + [move];
        }
        i := i + 1;
      }
      assert possibleMoves[..i] == possibleMoves;
      return Some(validMoves);
    }

    /** makeMove: validate in the source's order, then execute. */
    method MakeMove(move: ChessMove) returns (result: Outcome<InvalidMove>)
      requires Valid()
      modifies this, board
      ensures Valid() && board == old(board)
      ensures (State(), result) == ApplyMove(gen, old(State()), move)
    {
      var piece := board.GetPiece(move.startPosition);
      if piece.None? {
        return Fail(NoPieceAtStart);
      }
      if piece.value.pieceColor != teamTurn {
        return Fail(WrongTeam);
      }
      var valid := ValidMoves(move.startPosition);
      if move !in valid.value {
        return Fail(NotAValidMove);
      }
      result := Execute(move, piece.value);
    }

    /** The body of makeMove after its three checks. */
    method Execute(move: ChessMove, piece: ChessPiece) returns (result: Outcome<InvalidMove>)
      requires Valid()
      modifies this, board
      ensures Valid() && board == old(board)
      ensures (State(), result) == ExecuteMove(AsWritten, gen, old(State()), move, piece)
    {
      board.AddPiece(move.endPosition, Some(piece));
      board.AddPiece(move.startPosition, None);
      if move.promotionPiece.Some? {
        board.AddPiece(move.endPosition, Some(ChessPiece(piece.pieceColor, move.promotionPiece.value)));
      }
      EnPassant(move, piece);
      lastMove := Some(move);

      if IsInCheck(piece.pieceColor) {
        board.AddPiece(move.startPosition, Some(piece));
        board.AddPiece(move.endPosition, None);
        return Fail(LeavesKingInCheck);
      }

      teamTurn := if teamTurn == WHITE then BLACK else WHITE;
      return Pass;
    }

    /** The en-passant test of makeMove as written, on the board after the move and the promotion. */
    method EnPassant(move: ChessMove, piece: ChessPiece)
      requires Valid()
      modifies board
      ensures Valid()
      ensures board.board == CaptureEnPassant(AsWritten, old(board.board), piece, move, lastMove)
    {
      if piece.pieceType == PAWN {
        if move.endPosition.row == (if piece.pieceColor == WHITE then 5 else 4) {
          var enPassantPosition := ChessPosition(move.startPosition.row, move.endPosition.col);
          var enPassantPawn := board.GetPiece(enPassantPosition);
          if enPassantPawn.Some? && enPassantPawn.value.pieceType == PAWN &&
             enPassantPawn.value.pieceColor != piece.pieceColor &&
             lastMove.Some? &&
             lastMove.value.startPosition.row == (if piece.pieceColor == WHITE then 7 else 2) &&
             lastMove.value.endPosition.row == (if piece.pieceColor == WHITE then 5 else 4) &&
             lastMove.value.endPosition.col == enPassantPosition.col
          {
            board.AddPiece(enPassantPosition, None);
          }
        }
      }
    }
  }
}
