/** UIUtils.java: reading a typed move such as "e2 e4". */
module UIUtils {
  import opened Wrappers
  import opened JavaInts
  import opened ChessMoves
  import opened JavaStrings

  const MoveFormatError := "Invalid move format. Use 'e2 e4' format."
  const PositionFormatError := "Invalid position format. Use 'e2' format."

  /**
   * parsePosition: exactly two characters; the column is the letter's distance from 'a' plus
   * one and the row is the numeric value of the second character. Nothing checks 1..8.
   * A `Failure` is the IllegalArgumentException and its message.
   */
  function ParsePosition(pos: string): Result<ChessPosition, string>
  {
    if |pos| != 2 then Failure(PositionFormatError)
    else Success(ChessPosition(NumericValue(pos[1]), pos[0] as int - 'a' as int + 1))
  }

  /** parseMove: split on runs of whitespace into exactly two square names; never a promotion. */
  function ParseMove(input: string): Result<ChessMove, string>
  {
    var parts := SplitOnWhitespace(input);
    if |parts| != 2 then Failure(MoveFormatError)
    else
      match ParsePosition(parts[0])
      case Failure(e) => Failure(e)
      case Success(start) =>
        match ParsePosition(parts[1])
        case Failure(e) => Failure(e)
        case Success(end) => Success(ChessMove(start, end, None))
  }

  predicate OnBoard(p: ChessPosition)
  {
    1 <= p.row <= 8 && 1 <= p.col <= 8
  }

  /** The name a player types for a square: file letter, then rank digit. */
  function SquareName(p: ChessPosition): string
    requires OnBoard(p)
  {
    [('a' as int + p.col - 1) as char, ('0' as int + p.row) as char]
  }

  predicate IsSquareName(s: string)
  {
    |s| == 2 && 'a' <= s[0] <= 'h' && '1' <= s[1] <= '8'
  }

  /** parsePosition fails exactly on strings whose length is not two, with the position-format message. */
  lemma ParsePositionOutcomes(pos: string)
    ensures ParsePosition(pos).Failure? <==> |pos| != 2
    ensures ParsePosition(pos).Failure? ==> ParsePosition(pos).error == PositionFormatError
    ensures ParsePosition(pos).Success? ==>
      ParsePosition(pos).value.col == pos[0] as int - 'a' as int + 1 &&
      ParsePosition(pos).value.row == NumericValue(pos[1])
  {
  }

  /** Square names and on-board positions correspond one to one through parsePosition. */
  lemma SquareNameRoundTrip(p: ChessPosition, s: string)
    ensures OnBoard(p) ==> IsSquareName(SquareName(p)) && ParsePosition(SquareName(p)) == Success(p)
    ensures IsSquareName(s) ==> ParsePosition(s).Success? && OnBoard(ParsePosition(s).value) &&
                                SquareName(ParsePosition(s).value) == s
  {
  }

  /** There is no range check: "z9" is read as column 26, row 9. */
  lemma NoRangeCheck()
    ensures ParsePosition("z9") == Success(ChessPosition(9, 26))
    ensures ParsePosition("a0") == Success(ChessPosition(0, 1))
  {
  }

  /** parseMove succeeds only on exactly two tokens, reads them in order and never sets a promotion. */
  lemma ParseMoveOutcomes(input: string)
    ensures |SplitOnWhitespace(input)| != 2 ==> ParseMove(input) == Failure(MoveFormatError)
    ensures ParseMove(input).Success? ==>
      var parts := SplitOnWhitespace(input);
      |parts| == 2 &&
      ParsePosition(parts[0]) == Success(ParseMove(input).value.startPosition) &&
      ParsePosition(parts[1]) == Success(ParseMove(input).value.endPosition) &&
      ParseMove(input).value.promotionPiece == None
  {
  }

  /**
   * Java's split keeps the empty string before leading whitespace and drops the ones after
   * trailing whitespace: " e2 e4" is refused, "e2 e4 " is read.
   */
  lemma LeadingSpaceRefused()
    ensures ParseMove(" e2 e4") == Failure(MoveFormatError)
  {
    var lead := " e2 e4";
    assert FirstSpaceFrom(lead, 0) == 0;
    assert SpaceRunEnd(lead, 0) == 1;
    assert lead[1..] == "e2 e4";
    SplitOnWhitespaceTwoTokens("e2", "e4");
    assert SpacePieces(lead) == [""] + SpacePieces("e2 e4");
  }

  /** See LeadingSpaceRefused: the empty string after trailing whitespace is dropped. */
  lemma TrailingSpaceAccepted()
    ensures ParseMove("e2 e4 ") == Success(ChessMove(ChessPosition(2, 5), ChessPosition(4, 5), None))
  {
    var trail := "e2 e4 ";
    assert FirstSpaceFrom(trail, 0) == 2 by {
      assert !IsWhitespace(trail[0]) && !IsWhitespace(trail[1]) && IsWhitespace(trail[2]);
    }
    assert SpaceRunEnd(trail, 2) == 3;
    assert trail[..2] == "e2" && trail[3..] == "e4 ";
    var rest := "e4 ";
    assert FirstSpaceFrom(rest, 0) == 2 by {
      assert !IsWhitespace(rest[0]) && !IsWhitespace(rest[1]) && IsWhitespace(rest[2]);
    }
    assert SpaceRunEnd(rest, 2) == 3;
    assert rest[..2] == "e4" && rest[3..] == "";
    assert SpacePieces(trail) == ["e2", "e4", ""];
  }

  /** Typing two square names separated by a space gives back the move between those squares. */
  lemma ParseMoveRoundTrip(start: ChessPosition, end: ChessPosition)
    requires OnBoard(start) && OnBoard(end)
    ensures ParseMove(SquareName(start) + " " + SquareName(end)) == Success(ChessMove(start, end, None))
  {
    var a := SquareName(start);
    var b := SquareName(end);
    assert forall c | c in a :: !IsWhitespace(c);
    assert forall c | c in b :: !IsWhitespace(c);
    SplitOnWhitespaceTwoTokens(a, b);
    SquareNameRoundTrip(start, a);
    SquareNameRoundTrip(end, b);
  }
}

/** GamePlayUI.java's private copies of the same two parsers. */
module GamePlayUI {
  import opened Wrappers
  import opened JavaInts
  import opened ChessMoves
  import opened JavaStrings
  import UIUtils

  function ParsePosition(pos: string): Result<ChessPosition, string>
  {
    if |pos| != 2 then Failure("Invalid position format. Use 'e2' format.")
    else Success(ChessPosition(NumericValue(pos[1]), pos[0] as int - 'a' as int + 1))
  }

  function ParseMove(input: string): Result<ChessMove, string>
  {
    var parts := SplitOnWhitespace(input);
    if |parts| != 2 then Failure("Invalid move format. Use 'e2 e4' format.")
    else
      match ParsePosition(parts[0])
      case Failure(e) => Failure(e)
      case Success(start) =>
        match ParsePosition(parts[1])
        case Failure(e) => Failure(e)
        case Success(end) => Success(ChessMove(start, end, None))
  }

  /** The copies behave exactly like UIUtils' parsers, messages included, on every input. */
  lemma AgreesWithUIUtils(input: string)
    ensures ParsePosition(input) == UIUtils.ParsePosition(input)
    ensures ParseMove(input) == UIUtils.ParseMove(input)
  {
  }
}
