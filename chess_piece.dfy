/** ChessPiece.java: a piece is a colour and a kind, compared field by field. */
module ChessPieces {
  import opened JavaInts

  /** ChessGame.TeamColor */
  datatype TeamColor = WHITE | BLACK

  /** ChessPiece.PieceType */
  datatype PieceType = KING | QUEEN | BISHOP | KNIGHT | ROOK | PAWN

  /** A piece's two final fields; `getTeamColor` and `getPieceType` are the destructors. */
  datatype ChessPiece = ChessPiece(pieceColor: TeamColor, pieceType: PieceType)

  /** ChessPiece.equals: same colour and same kind. */
  function Equals(a: ChessPiece, b: ChessPiece): bool
  {
    a.pieceColor == b.pieceColor && a.pieceType == b.pieceType
  }

  /**
   * ChessPiece.hashCode: `31 * pieceColor.hashCode() + type.hashCode()` in `int` arithmetic.
   * Enum hash codes are identity hashes in Java, so they are parameters here.
   */
  function HashCode(p: ChessPiece, colorHash: TeamColor -> int32, typeHash: PieceType -> int32): int32
  {
    Wrap(31 * colorHash(p.pieceColor) + typeHash(p.pieceType))
  }

  /** Java equality of pieces is exactly value equality of the model's datatype. */
  lemma EqualsIsValueEquality(a: ChessPiece, b: ChessPiece)
    ensures Equals(a, b) <==> a == b
  {
  }

  /** Equal pieces have equal hash codes, whatever the enum hash codes are. */
  lemma EqualPiecesHaveEqualHashes(a: ChessPiece, b: ChessPiece, colorHash: TeamColor -> int32, typeHash: PieceType -> int32)
    requires Equals(a, b)
    ensures HashCode(a, colorHash, typeHash) == HashCode(b, colorHash, typeHash)
  {
  }
}

/** ChessPiece.pieceMoves: the per-kind dispatch and its (empty) per-kind generators. */
module PieceMoves {
  import opened Wrappers
  import opened ChessPieces
  import opened ChessMoves

  /** What a generator sees of a board: ChessBoard's position-to-piece map (a `null` piece is `None`). */
  type Squares = map<ChessPosition, Option<ChessPiece>>

  /** Any move generator of `pieceMoves`' signature: the moving piece, the board and its square. */
  type MoveGenerator = (ChessPiece, Squares, ChessPosition) -> seq<ChessMove>

  /** pieceMoves: start from an empty list and let the helper for the piece's kind append to it. */
  function PieceMoves(piece: ChessPiece, board: Squares, myPosition: ChessPosition): seq<ChessMove>
  {
    var moves := [];
    match piece.pieceType
    case KING => AddKingMoves(board, myPosition, moves)
    case QUEEN => AddQueenMoves(board, myPosition, moves)
    case BISHOP => AddBishopMoves(board, myPosition, moves)
    case KNIGHT => AddKnightMoves(board, myPosition, moves)
    case ROOK => AddRookMoves(board, myPosition, moves)
    case PAWN => AddPawnMoves(board, myPosition, moves)
  }

  // Each per-kind helper has an empty body in the source: the list comes back as it went in.
  function AddKingMoves(board: Squares, myPosition: ChessPosition, moves: seq<ChessMove>): seq<ChessMove> { moves }
  function AddQueenMoves(board: Squares, myPosition: ChessPosition, moves: seq<ChessMove>): seq<ChessMove> { moves }
  function AddBishopMoves(board: Squares, myPosition: ChessPosition, moves: seq<ChessMove>): seq<ChessMove> { moves }
  function AddKnightMoves(board: Squares, myPosition: ChessPosition, moves: seq<ChessMove>): seq<ChessMove> { moves }
  function AddRookMoves(board: Squares, myPosition: ChessPosition, moves: seq<ChessMove>): seq<ChessMove> { moves }
  function AddPawnMoves(board: Squares, myPosition: ChessPosition, moves: seq<ChessMove>): seq<ChessMove> { moves }

  /** For every kind, board and square, the generator of this snapshot produces no move. */
  lemma PieceMovesIsEmpty(piece: ChessPiece, board: Squares, myPosition: ChessPosition)
    ensures PieceMoves(piece, board, myPosition) == []
  {
  }
}
