/**
 * ChessMove.java, and the position value it is built from.
 * ChessPosition.java is not part of this model: a position is taken to be a (row, col) pair
 * of Java ints with field-wise equality.
 */
module ChessMoves {
  import opened Wrappers
  import opened JavaInts
  import opened ChessPieces

  datatype ChessPosition = ChessPosition(row: int32, col: int32)

  /** A move's three final fields; a `null` promotion piece is `None`. The getters are the destructors. */
  datatype ChessMove = ChessMove(startPosition: ChessPosition, endPosition: ChessPosition, promotionPiece: Option<PieceType>)

  /** ChessMove.equals: start and end positions equal and the same promotion piece (or both null). */
  function Equals(a: ChessMove, b: ChessMove): bool
  {
    a.startPosition == b.startPosition && a.endPosition == b.endPosition && a.promotionPiece == b.promotionPiece
  }

  /**
   * ChessMove.hashCode in `int` arithmetic; a null promotion contributes 0.
   * The position and enum hash codes are not part of this model and are parameters.
   */
  function HashCode(m: ChessMove, posHash: ChessPosition -> int32, typeHash: PieceType -> int32): int32
  {
    var h := Wrap(31 * posHash(m.startPosition) + posHash(m.endPosition));
    Wrap(31 * h + (match m.promotionPiece case None => 0 case Some(t) => typeHash(t)))
  }

  /** Java equality of moves is exactly value equality, so it is reflexive and symmetric. */
  lemma EqualsIsValueEquality(a: ChessMove, b: ChessMove)
    ensures Equals(a, b) <==> a == b
    ensures Equals(a, a)
    ensures Equals(a, b) == Equals(b, a)
  {
  }

  /** A null promotion never equals a non-null one. */
  lemma NullPromotionEqualsOnlyNull(a: ChessMove, b: ChessMove)
    requires a.promotionPiece.None? && b.promotionPiece.Some?
    ensures !Equals(a, b)
  {
  }

  /** Equal moves have equal hash codes. */
  lemma EqualMovesHaveEqualHashes(a: ChessMove, b: ChessMove, posHash: ChessPosition -> int32, typeHash: PieceType -> int32)
    requires Equals(a, b)
    ensures HashCode(a, posHash, typeHash) == HashCode(b, posHash, typeHash)
  {
  }

  /** A null promotion hashes like a promotion piece whose own hash code is 0. */
  lemma NullPromotionHashesAsZero(s: ChessPosition, e: ChessPosition, t: PieceType,
                                  posHash: ChessPosition -> int32, typeHash: PieceType -> int32)
    requires typeHash(t) == 0
    ensures HashCode(ChessMove(s, e, None), posHash, typeHash) == HashCode(ChessMove(s, e, Some(t)), posHash, typeHash)
  {
  }
}
