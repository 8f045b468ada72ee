/** What ChessGame.java promises about check, legal moves and makeMove, proved on the value model. */
module ChessGameProperties {
  import opened Wrappers
  import opened ChessPieces
  import opened ChessMoves
  import opened PieceMoves
  import opened ChessBoards
  import opened ChessGames

  /** The piece that ends up on the end square: the promotion piece if any, else the mover. */
  function Arriving(piece: ChessPiece, m: ChessMove): ChessPiece
  {
    if m.promotionPiece.Some? then ChessPiece(piece.pieceColor, m.promotionPiece.value) else piece
  }

  /** Move and promotion, square by square. */
  lemma PromotedLookup(b: Board, m: ChessMove, piece: ChessPiece, q: ChessPosition)
    ensures Get(Promote(Simulate(b, m, piece), piece, m), q) ==
      if q == m.endPosition && (q != m.startPosition || m.promotionPiece.Some?) then Some(Arriving(piece, m))
      else if q == m.startPosition then None
      else Get(b, q)
  {
    var placed := Put(b, m.endPosition, Some(piece));
    PutGet(b, m.endPosition, Some(piece), q);
    PutGet(placed, m.startPosition, None, q);
    if m.promotionPiece.Some? {
      PutGet(Simulate(b, m, piece), m.endPosition, Some(Arriving(piece, m)), q);
    }
  }

  /** makeMove's execution step under either en-passant test, square by square, as seen from the old board. */
  lemma {:induction false} AfterLookup(rule: EnPassantRule, s: GameState, m: ChessMove, piece: ChessPiece, q: ChessPosition)
    ensures var after := CaptureEnPassant(rule, Promote(Simulate(s.board, m, piece), piece, m), piece, m, s.lastMove);
      Get(after, q) ==
        if q == m.endPosition && (q != m.startPosition || m.promotionPiece.Some?) then Some(Arriving(piece, m))
        else if q == m.startPosition then None
        else if q == EnPassantSquare(m) && EnPassantApplies(rule, s.board, piece, m, s.lastMove) then None
        else Get(s.board, q)
  {
    var promoted := Promote(Simulate(s.board, m, piece), piece, m);
    var ep := EnPassantSquare(m);
    PromotedLookup(s.board, m, piece, q);
    PromotedLookup(s.board, m, piece, ep);
    if EnPassantApplies(rule, promoted, piece, m, s.lastMove) {
      PutGet(promoted, ep, None, q);
    }
  }

  lemma PromoteDistinct(b: Board, m: ChessMove, piece: ChessPiece)
    requires DistinctKeys(b)
    ensures DistinctKeys(Simulate(b, m, piece))
    ensures DistinctKeys(Promote(Simulate(b, m, piece), piece, m))
  {
    PutDistinct(b, m.endPosition, Some(piece));
    PutDistinct(Put(b, m.endPosition, Some(piece)), m.startPosition, None);
    PutDistinct(Simulate(b, m, piece), m.endPosition, Some(Arriving(piece, m)));
  }

  /** makeMove keeps one entry per square, whatever it does. */
  lemma ApplyMoveKeepsDistinctKeys(gen: MoveGenerator, s: GameState, move: ChessMove)
    requires DistinctKeys(s.board)
    ensures DistinctKeys(ApplyMove(gen, s, move).0.board)
  {
    var p := Get(s.board, move.startPosition);
    if p.Some? {
      var piece := p.value;
      var promoted := Promote(Simulate(s.board, move, piece), piece, move);
      PromoteDistinct(s.board, move, piece);
      PutDistinct(promoted, EnPassantSquare(move), None);
      var after := CaptureEnPassant(AsWritten, promoted, piece, move, s.lastMove);
      PutDistinct(after, move.startPosition, Some(piece));
      PutDistinct(Put(after, move.startPosition, Some(piece)), move.endPosition, None);
    }
  }

  /** With distinct keys, findKingPosition finds a square that holds the king, and finds none exactly when no square does. */
  lemma {:induction false} FindKingPositionIsAKingSquare(b: Board, c: TeamColor)
    requires DistinctKeys(b)
    ensures FindKingPosition(b, c).Some? ==> Get(b, FindKingPosition(b, c).value) == Some(ChessPiece(c, KING))
    ensures FindKingPosition(b, c).None? <==> forall p :: Get(b, p) != Some(ChessPiece(c, KING))
  {
    var r := FindKingPosition(b, c);
    if r.Some? {
      var i :| 0 <= i < |b| && b[i] == (r.value, Some(ChessPiece(c, KING)));
      GetAt(b, i);
    } else {
      forall p ensures Get(b, p) != Some(ChessPiece(c, KING)) {
        match IndexOf(b, p)
        case None =>
        case Some(i) =>
      }
    }
  }

  /** A side without a king is never in check. */
  lemma NoKingNoCheck(gen: MoveGenerator, b: Board, c: TeamColor)
    requires DistinctKeys(b)
    requires forall p :: Get(b, p) != Some(ChessPiece(c, KING))
    ensures !IsInCheckOn(gen, b, c)
  {
    FindKingPositionIsAKingSquare(b, c);
  }

  /** With a single king of colour `c` on `k`, being in check means exactly that `k` is attacked. */
  lemma CheckIsAttackOnTheKing(gen: MoveGenerator, b: Board, c: TeamColor, k: ChessPosition)
    requires DistinctKeys(b)
    requires Get(b, k) == Some(ChessPiece(c, KING))
    requires forall p :: Get(b, p) == Some(ChessPiece(c, KING)) ==> p == k
    ensures IsInCheckOn(gen, b, c) <==> Attacked(gen, b, c, k)
  {
    FindKingPositionIsAKingSquare(b, c);
  }

  /** Checkmate and stalemate both mean that no simulated move helps; check tells them apart. */
  lemma GameOverCases(gen: MoveGenerator, b: Board, c: TeamColor)
    ensures !(IsInCheckmateOn(gen, b, c) && IsInStalemateOn(gen, b, c))
    ensures IsInCheckmateOn(gen, b, c) || IsInStalemateOn(gen, b, c) <==> !HasEscape(gen, b, c)
  {
  }

  /** The three rejections before any change, in the source's order; each leaves the game as it was. */
  lemma RejectionsChangeNothing(gen: MoveGenerator, s: GameState, move: ChessMove)
    ensures var (s', r) := ApplyMove(gen, s, move);
      var p := Get(s.board, move.startPosition);
      (r == Fail(NoPieceAtStart) <==> p.None?) &&
      (r == Fail(WrongTeam) <==> p.Some? && p.value.pieceColor != s.teamTurn) &&
      (r == Fail(NotAValidMove) <==>
         p.Some? && p.value.pieceColor == s.teamTurn && move !in ValidMovesOn(gen, s.board, move.startPosition).value) &&
      (r in {Fail(NoPieceAtStart), Fail(WrongTeam), Fail(NotAValidMove)} ==> s' == s)
  {
  }

  /** An accepted move was generated for the mover, moves it, records it, passes the turn and leaves the mover out of check. */
  lemma {:induction false} AcceptedMoveEffects(gen: MoveGenerator, s: GameState, move: ChessMove)
    requires DistinctKeys(s.board)
    requires ApplyMove(gen, s, move).1 == Pass
    ensures Get(s.board, move.startPosition).Some?
    ensures var piece := Get(s.board, move.startPosition).value;
      var s' := ApplyMove(gen, s, move).0;
      piece.pieceColor == s.teamTurn &&
      move in gen(piece, ToMap(s.board), move.startPosition) &&
      s'.teamTurn == Opponent(s.teamTurn) &&
      s'.lastMove == Some(move) &&
      (move.startPosition != move.endPosition ==>
         Get(s'.board, move.startPosition) == None &&
         Get(s'.board, move.endPosition) == Some(Arriving(piece, move))) &&
      !IsInCheckOn(gen, s'.board, piece.pieceColor) &&
      DistinctKeys(s'.board)
  {
    var piece := Get(s.board, move.startPosition).value;
    AfterLookup(AsWritten, s, move, piece, move.startPosition);
    AfterLookup(AsWritten, s, move, piece, move.endPosition);
    ApplyMoveKeepsDistinctKeys(gen, s, move);
  }

  /**
   * Apart from the start and end squares, an accepted move changes at most the en-passant square, and
   * only by removing an enemy pawn, after an enemy pawn's two-row advance into the end column, when the
   * mover is a pawn ending on the advanced pawn's row (the test as written).
   */
  lemma {:induction false} OnlyEnPassantClearsAnotherSquare(gen: MoveGenerator, s: GameState, move: ChessMove, q: ChessPosition)
    requires ApplyMove(gen, s, move).1 == Pass
    requires q != move.startPosition && q != move.endPosition
    ensures var piece := Get(s.board, move.startPosition).value;
      Get(ApplyMove(gen, s, move).0.board, q) ==
        if q == EnPassantSquare(move) && EnPassantApplies(AsWritten, s.board, piece, move, s.lastMove) then None
        else Get(s.board, q)
    ensures var piece := Get(s.board, move.startPosition).value;
      Get(ApplyMove(gen, s, move).0.board, q) != Get(s.board, q) ==>
        q == EnPassantSquare(move) && piece.pieceType == PAWN &&
        move.endPosition.row == AdvancedPawnRow(piece.pieceColor) &&
        Get(s.board, q) == Some(ChessPiece(Opponent(piece.pieceColor), PAWN)) &&
        s.lastMove.Some? && s.lastMove.value.startPosition.row == (if piece.pieceColor == WHITE then 7 else 2) &&
        s.lastMove.value.endPosition == ChessPosition(AdvancedPawnRow(piece.pieceColor), q.col) &&
        Get(ApplyMove(gen, s, move).0.board, q) == None
  {
    var piece := Get(s.board, move.startPosition).value;
    AfterLookup(AsWritten, s, move, piece, q);
  }

  /** A move that would leave the mover in check is taken back: the piece returns, the end square is emptied, the turn stays, and the move is still recorded. */
  lemma {:induction false} SelfCheckIsTakenBack(gen: MoveGenerator, s: GameState, move: ChessMove, q: ChessPosition)
    requires DistinctKeys(s.board)
    requires ApplyMove(gen, s, move).1 == Fail(LeavesKingInCheck)
    ensures Get(s.board, move.startPosition).Some?
    ensures var piece := Get(s.board, move.startPosition).value;
      var s' := ApplyMove(gen, s, move).0;
      move in ValidMovesOn(gen, s.board, move.startPosition).value &&
      s'.teamTurn == s.teamTurn &&
      s'.lastMove == Some(move) &&
      Get(s'.board, move.endPosition) == None &&
      (move.startPosition != move.endPosition ==> Get(s'.board, move.startPosition) == Some(piece)) &&
      (q != move.startPosition && q != move.endPosition ==>
         Get(s'.board, q) ==
           if q == EnPassantSquare(move) && EnPassantApplies(AsWritten, s.board, piece, move, s.lastMove) then None
           else Get(s.board, q))
  {
    var piece := Get(s.board, move.startPosition).value;
    var after := CaptureEnPassant(AsWritten, Promote(Simulate(s.board, move, piece), piece, move), piece, move, s.lastMove);
    AfterLookup(AsWritten, s, move, piece, q);
    PutGet(after, move.startPosition, Some(piece), q);
    PutGet(Put(after, move.startPosition, Some(piece)), move.endPosition, None, q);
    PutGet(after, move.startPosition, Some(piece), move.startPosition);
    PutGet(Put(after, move.startPosition, Some(piece)), move.endPosition, None, move.startPosition);
  }

  /** The generator of this snapshot produces no move, so no side is ever in check. */
  lemma NoCheckWithoutMoves(b: Board, c: TeamColor)
    ensures !IsInCheckOn(PieceMoves.PieceMoves, b, c)
    ensures !HasEscape(PieceMoves.PieceMoves, b, c)
  {
    forall pc, sq, pos ensures PieceMoves.PieceMoves(pc, sq, pos) == [] {
      PieceMovesIsEmpty(pc, sq, pos);
    }
  }

  /** ...hence every side is in stalemate and none in checkmate. */
  lemma AlwaysStalemateWithoutMoves(b: Board, c: TeamColor)
    ensures IsInStalemateOn(PieceMoves.PieceMoves, b, c)
    ensures !IsInCheckmateOn(PieceMoves.PieceMoves, b, c)
  {
    NoCheckWithoutMoves(b, c);
  }

  /** ...and every makeMove is rejected before the board changes. */
  lemma EveryMoveRejectedWithoutMoves(s: GameState, move: ChessMove)
    ensures ApplyMove(PieceMoves.PieceMoves, s, move).0 == s
    ensures ApplyMove(PieceMoves.PieceMoves, s, move).1 ==
      if Get(s.board, move.startPosition).None? then Fail(NoPieceAtStart)
      else if Get(s.board, move.startPosition).value.pieceColor != s.teamTurn then Fail(WrongTeam)
      else Fail(NotAValidMove)
  {
    var p := Get(s.board, move.startPosition);
    if p.Some? {
      PieceMovesIsEmpty(p.value, ToMap(s.board), move.startPosition);
    }
  }

  /**
   * As written, the en-passant test fires only for a pawn ending on the advanced pawn's own row, and
   * the square it clears is then on the mover's start row: for any move that changes row, that is not
   * the square where the last move put the enemy pawn.
   */
  lemma AsWrittenEnPassantMissesTheAdvancedPawn(b: Board, piece: ChessPiece, m: ChessMove, lastMove: Option<ChessMove>)
    requires EnPassantApplies(AsWritten, b, piece, m, lastMove)
    requires m.startPosition.row != m.endPosition.row
    ensures lastMove.Some? && EnPassantSquare(m) != lastMove.value.endPosition
  {
  }

  /** No entry of `b` holds a king. */
  predicate KingFree(b: Board)
  {
    forall i :: 0 <= i < |b| ==> b[i].1.Some? ==> b[i].1.value.pieceType != KING
  }

  /** Writing anything but a king keeps a board king-free. */
  lemma PutKeepsKingFree(b: Board, p: ChessPosition, v: Option<ChessPiece>)
    requires KingFree(b) && (v.Some? ==> v.value.pieceType != KING)
    ensures KingFree(Put(b, p, v))
  {
  }

  /** A king-free board puts no side in check, so the execution step is never taken back on it. */
  lemma NoKingBoard(gen: MoveGenerator, b: Board, c: TeamColor)
    requires KingFree(b)
    ensures !IsInCheckOn(gen, b, c)
  {
  }

  /** Moving a pawn and then clearing a square keeps a king-free board king-free. */
  lemma PawnMoveKeepsKingFree(b: Board, m: ChessMove, c: TeamColor, q: ChessPosition)
    requires KingFree(b) && m.promotionPiece.None?
    ensures KingFree(Promote(Simulate(b, m, ChessPiece(c, PAWN)), ChessPiece(c, PAWN), m))
    ensures KingFree(Put(Promote(Simulate(b, m, ChessPiece(c, PAWN)), ChessPiece(c, PAWN), m), q, None))
  {
    PutKeepsKingFree(b, m.endPosition, Some(ChessPiece(c, PAWN)));
    PutKeepsKingFree(Put(b, m.endPosition, Some(ChessPiece(c, PAWN))), m.startPosition, None);
    PutKeepsKingFree(Simulate(b, m, ChessPiece(c, PAWN)), q, None);
  }

  /**
   * White pawn on (5,4), black pawn just advanced (7,5) -> (5,5); white captures en passant (5,4) -> (6,5).
   * On any king-free board holding those two pawns, the step as written is accepted but leaves the black
   * pawn on the board; the corrected step removes it.
   */
  lemma EnPassantCounterexample(gen: MoveGenerator, s: GameState)
    requires KingFree(s.board)
    requires Get(s.board, ChessPosition(5, 5)) == Some(ChessPiece(BLACK, PAWN))
    requires s.lastMove == Some(ChessMove(ChessPosition(7, 5), ChessPosition(5, 5), None))
    ensures var wp := ChessPiece(WHITE, PAWN);
      var m := ChessMove(ChessPosition(5, 4), ChessPosition(6, 5), None);
      ExecuteMove(AsWritten, gen, s, m, wp).1 == Pass &&
      Get(ExecuteMove(AsWritten, gen, s, m, wp).0.board, ChessPosition(5, 5)) == Some(ChessPiece(BLACK, PAWN)) &&
      ExecuteMove(Corrected, gen, s, m, wp).1 == Pass &&
      Get(ExecuteMove(Corrected, gen, s, m, wp).0.board, ChessPosition(5, 5)) == None
  {
    var wp := ChessPiece(WHITE, PAWN);
    var m := ChessMove(ChessPosition(5, 4), ChessPosition(6, 5), None);
    var moved := Promote(Simulate(s.board, m, wp), wp, m);
    PromotedLookup(s.board, m, wp, ChessPosition(5, 5));
    PutGet(moved, ChessPosition(5, 5), None, ChessPosition(5, 5));
    assert !EnPassantApplies(AsWritten, moved, wp, m, s.lastMove);
    assert EnPassantApplies(Corrected, moved, wp, m, s.lastMove);
    PawnMoveKeepsKingFree(s.board, m, WHITE, ChessPosition(5, 5));
    NoKingBoard(gen, moved, WHITE);
    NoKingBoard(gen, Put(moved, ChessPosition(5, 5), None), WHITE);
  }

  /**
   * White pawn on (4,4) takes the black pawn that just advanced (7,5) -> (5,5) by an ordinary capture
   * onto (5,5). On any king-free board with another black pawn on (4,5), the step as written also
   * clears (4,5); the corrected step leaves it.
   */
  lemma AsWrittenClearsAnUninvolvedPawn(gen: MoveGenerator, s: GameState)
    requires KingFree(s.board)
    requires Get(s.board, ChessPosition(4, 5)) == Some(ChessPiece(BLACK, PAWN))
    requires s.lastMove == Some(ChessMove(ChessPosition(7, 5), ChessPosition(5, 5), None))
    ensures var wp := ChessPiece(WHITE, PAWN);
      var m := ChessMove(ChessPosition(4, 4), ChessPosition(5, 5), None);
      ExecuteMove(AsWritten, gen, s, m, wp).1 == Pass &&
      Get(ExecuteMove(AsWritten, gen, s, m, wp).0.board, ChessPosition(4, 5)) == None &&
      ExecuteMove(Corrected, gen, s, m, wp).1 == Pass &&
      Get(ExecuteMove(Corrected, gen, s, m, wp).0.board, ChessPosition(4, 5)) == Some(ChessPiece(BLACK, PAWN))
  {
    var wp := ChessPiece(WHITE, PAWN);
    var m := ChessMove(ChessPosition(4, 4), ChessPosition(5, 5), None);
    var moved := Promote(Simulate(s.board, m, wp), wp, m);
    PromotedLookup(s.board, m, wp, ChessPosition(4, 5));
    PutGet(moved, ChessPosition(4, 5), None, ChessPosition(4, 5));
    assert EnPassantApplies(AsWritten, moved, wp, m, s.lastMove);
    assert !EnPassantApplies(Corrected, moved, wp, m, s.lastMove);
    PawnMoveKeepsKingFree(s.board, m, WHITE, ChessPosition(4, 5));
    NoKingBoard(gen, moved, WHITE);
    NoKingBoard(gen, Put(moved, ChessPosition(4, 5), None), WHITE);
  }

  /** The board of the second counterexample exists: white pawn (4,4), black pawns (5,5) and (4,5). */
  lemma UninvolvedPawnBoard()
    ensures var b: Board := [(ChessPosition(4, 4), Some(ChessPiece(WHITE, PAWN))),
                             (ChessPosition(5, 5), Some(ChessPiece(BLACK, PAWN))),
                             (ChessPosition(4, 5), Some(ChessPiece(BLACK, PAWN)))];
      KingFree(b) && Get(b, ChessPosition(4, 5)) == Some(ChessPiece(BLACK, PAWN))
  {
  }

  /**
   * With the corrected landing row, a pawn that captures en passant right after an enemy pawn's
   * two-row advance removes that pawn.
   */
  lemma {:induction false} EnPassantRemovesTheAdvancedPawn(gen: MoveGenerator, s: GameState, move: ChessMove)
    requires ApplyMoveCorrected(gen, s, move).1 == Pass
    requires var piece := Get(s.board, move.startPosition).value;
      var c := piece.pieceColor;
      piece.pieceType == PAWN &&
      move.startPosition.row == AdvancedPawnRow(c) &&
      move.endPosition.row == EnPassantLandingRow(c) &&
      s.lastMove == Some(ChessMove(ChessPosition(if c == WHITE then 7 else 2, move.endPosition.col),
                                   ChessPosition(AdvancedPawnRow(c), move.endPosition.col),
                                   None)) &&
      Get(s.board, EnPassantSquare(move)) == Some(ChessPiece(Opponent(c), PAWN))
    ensures Get(ApplyMoveCorrected(gen, s, move).0.board, s.lastMove.value.endPosition) == None
  {
    var piece := Get(s.board, move.startPosition).value;
    AfterLookup(Corrected, s, move, piece, EnPassantSquare(move));
  }
}
