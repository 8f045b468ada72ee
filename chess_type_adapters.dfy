/**
 * ChessTypeAdapters.java: the second set of Gson adapters. Its board encoder walks the 64
 * squares in row-major order and writes only occupied squares, with no "board" wrapper; its
 * position decoder understands only the comma shape "R,C".
 */
module ChessTypeAdapters {
  import opened Wrappers
  import opened JavaInts
  import opened ChessPieces
  import opened ChessMoves
  import opened ChessBoards
  import opened ChessGames
  import opened JavaStrings
  import opened Json
  import opened ChessTexts
  import CA = ChessAdapters

  /** ChessPositionAdapter.deserialize: split on ',' and parse both halves; every exception is `None`. */
  function DecodePosition(text: string): Option<ChessPosition>
  {
    var fields := SplitOn(text, ",");
    if |fields| < 2 then None else CA.PositionOf(ParseInt(fields[0]), ParseInt(fields[1]))
  }

  /** On every text that is not in the braced shape, this decoder and the other set's agree. */
  lemma AgreesWithChessAdapters(text: string)
    requires !StartsWith(text, "ChessPosition{")
    ensures DecodePosition(text) == CA.DecodePosition(text)
  {
  }

  /** The comma shape of every position is read back. */
  lemma CommaRoundTrip(p: ChessPosition)
    ensures DecodePosition(PositionText(Comma, p)) == Some(p)
  {
    var r, c := IntToString(p.row), IntToString(p.col);
    IntToStringRoundTrip(p.row);
    IntToStringRoundTrip(p.col);
    SplitOnTwoFields(r, ",", c);
  }

  /** Integer.parseInt rejects a text that starts with anything but a sign or a digit. */
  lemma ParseIntRejectsLetter(s: string)
    requires s != [] && !IsDigit(s[0]) && s[0] != '-' && s[0] != '+'
    ensures ParseInt(s) == None
  {
    assert s[0] in s;
  }

  /** The braced shape of every position is rejected: its first half is "ChessPosition{row=R". */
  lemma BracedRejected(p: ChessPosition)
    ensures DecodePosition(PositionText(Braced, p)) == None
  {
    var r, c := IntToString(p.row), IntToString(p.col);
    IntToStringRoundTrip(p.row);
    IntToStringRoundTrip(p.col);
    var x, y := "ChessPosition{row=" + r, " col=" + c + "}";
    assert PositionText(Braced, p) == x + "," + y;
    assert ',' !in x && ',' !in y;
    SplitOnTwoFields(x, ",", y);
    ParseIntRejectsLetter(x);
  }

  /** ChessPieceAdapter.serialize: colour, then type; nothing else. */
  function EncodePiece(piece: ChessPiece): Json
  {
    JObject([("pieceColor", JString(TeamColorName(piece.pieceColor))),
             ("pieceType", JString(PieceTypeName(piece.pieceType)))])
  }

  function EnumField<E>(members: seq<(string, Json)>, name: string, valueOf: string -> Option<E>): Option<E>
  {
    match Member(members, name)
    case None => None
    case Some(j) => match AsString(j) case None => None case Some(s) => valueOf(s)
  }

  /** ChessPieceAdapter.deserialize: both members are required. */
  function DecodePiece(j: Json): Option<ChessPiece>
  {
    match AsObject(j)
    case None => None
    case Some(members) =>
      var color, pieceType := EnumField(members, "pieceColor", TeamColorOf), EnumField(members, "pieceType", PieceTypeOf);
      if color.None? || pieceType.None? then None else Some(ChessPiece(color.value, pieceType.value))
  }

  /** Every piece is read back unchanged. */
  lemma PieceRoundTrip(piece: ChessPiece)
    ensures DecodePiece(EncodePiece(piece)) == Some(piece)
  {
    var members := EncodePiece(piece).members;
    MemberAt(members, 0);
    MemberAt(members, 1);
    EnumNamesRoundTrip(piece.pieceColor, piece.pieceType, "");
  }

  /** context.deserialize of a board value: JSON null is a null piece. */
  function DecodePieceValue(j: Json): Option<Option<ChessPiece>>
  {
    if j.JNull? then Some(None)
    else match DecodePiece(j)
      case None => None
      case Some(piece) => Some(Some(piece))
  }

  /** The column loop's body at square `q`: an occupied square adds a member. */
  function EncodeSquare(members: seq<(string, Json)>, b: Board, format: PositionFormat, q: ChessPosition): seq<(string, Json)>
  {
    match Get(b, q)
    case None => members
    case Some(piece) => Add(members, PositionText(format, q), EncodePiece(piece))
  }

  /**
   * The members after the loops have visited every square before (row, col) in row-major
   * order; (row, 9) is the end of a row and (9, 1) the end of the board.
   */
  function EncodeUpTo(b: Board, format: PositionFormat, row: nat, col: nat): seq<(string, Json)>
    requires 1 <= row <= 9 && 1 <= col <= 9 && (row <= 8 || col == 1)
    decreases row, col
  {
    if col > 1 then EncodeSquare(EncodeUpTo(b, format, row, col - 1), b, format, ChessPosition(row, col - 1))
    else if row > 1 then EncodeUpTo(b, format, row - 1, 9)
    else []
  }

  /** ChessBoardAdapter.serialize: one member per occupied square, rows 1 to 8, columns 1 to 8. */
  function EncodeBoard(b: Board, format: PositionFormat): Json
  {
    JObject(EncodeUpTo(b, format, 9, 1))
  }

  /** Square `q` comes before (row, col) in the loops' order. */
  predicate Before(q: ChessPosition, row: int, col: int)
  {
    1 <= q.row && 1 <= q.col <= 8 && (q.row < row || (q.row == row && q.col < col))
  }

  predicate OnBoard(q: ChessPosition)
  {
    1 <= q.row <= 8 && 1 <= q.col <= 8
  }

  /** ChessBoardAdapter.serialize, loop by loop. */
  method SerializeBoard(src: ChessBoard, format: PositionFormat) returns (j: Json)
    ensures j == EncodeBoard(src.board, format)
  {
    var members: seq<(string, Json)> := [];
    var row := 1;
    while row <= 8
      invariant 1 <= row <= 9
      invariant members == EncodeUpTo(src.board, format, row, 1)
    {
      var col := 1;
      while col <= 8
        invariant 1 <= col <= 9
        invariant members == EncodeUpTo(src.board, format, row, col)
      {
        var position := ChessPosition(row, col);
        var piece := src.GetPiece(position);
        if piece.Some? {
          members := Add(members, PositionText(format, position), EncodePiece(piece.value));
        }
        col := col + 1;
      }
      row := row + 1;
    }
    j := JObject(members);
  }

  /**
   * What the encoder writes under a square's name: the square's piece when the square was
   * visited and is occupied, nothing otherwise.
   */
  lemma {:induction false} EncodeUpToMembers(b: Board, format: PositionFormat, row: nat, col: nat, q: ChessPosition)
    requires 1 <= row <= 9 && 1 <= col <= 9 && (row <= 8 || col == 1)
    ensures Member(EncodeUpTo(b, format, row, col), PositionText(format, q)) ==
      if Before(q, row, col) && Get(b, q).Some? then Some(EncodePiece(Get(b, q).value)) else None
    decreases row, col
  {
    if col > 1 {
      EncodeUpToMembers(b, format, row, col - 1, q);
      CA.PositionTextInjective(format, q, ChessPosition(row, col - 1));
    } else if row > 1 {
      EncodeUpToMembers(b, format, row - 1, 9, q);
    }
  }

  /** Every occupied square on the board, and nothing else, is written under its own name. */
  lemma EncodeBoardContents(b: Board, format: PositionFormat, q: ChessPosition)
    ensures Member(EncodeBoard(b, format).members, PositionText(format, q)) ==
      if OnBoard(q) && Get(b, q).Some? then Some(EncodePiece(Get(b, q).value)) else None
  {
    EncodeUpToMembers(b, format, 9, 1, q);
  }

  /** A visited, occupied square is appended under a name not used before. */
  lemma EncodeSquareAppends(b: Board, format: PositionFormat, row: nat, col: nat)
    requires 1 <= row <= 8 && 1 < col <= 9 && Get(b, ChessPosition(row, col - 1)).Some?
    ensures var s := ChessPosition(row, col - 1);
      EncodeUpTo(b, format, row, col) ==
      EncodeUpTo(b, format, row, col - 1) + [(PositionText(format, s), EncodePiece(Get(b, s).value))]
  {
    var s := ChessPosition(row, col - 1);
    var prev := EncodeUpTo(b, format, row, col - 1);
    EncodeUpToMembers(b, format, row, col - 1, s);
    MemberFound(prev, PositionText(format, s));
    CA.AddNewName(prev, PositionText(format, s), EncodePiece(Get(b, s).value));
  }

  /** The occupied squares before (row, col), in the loops' order: what reading the encoding back builds. */
  function PiecesUpTo(b: Board, row: nat, col: nat): Board
    requires 1 <= row <= 9 && 1 <= col <= 9 && (row <= 8 || col == 1)
    decreases row, col
  {
    if col > 1 then
      var s := ChessPosition(row, col - 1);
      match Get(b, s)
      case None => PiecesUpTo(b, row, col - 1)
      case Some(piece) => PiecesUpTo(b, row, col - 1) + [(s, Some(piece))]
    else if row > 1 then PiecesUpTo(b, row - 1, 9)
    else []
  }

  lemma {:induction false} PiecesUpToKeys(b: Board, row: nat, col: nat)
    requires 1 <= row <= 9 && 1 <= col <= 9 && (row <= 8 || col == 1)
    ensures forall i | 0 <= i < |PiecesUpTo(b, row, col)| :: Before(PiecesUpTo(b, row, col)[i].0, row, col)
    decreases row, col
  {
    if col > 1 {
      PiecesUpToKeys(b, row, col - 1);
    } else if row > 1 {
      PiecesUpToKeys(b, row - 1, 9);
    }
  }

  /** The pieces read back: a square's piece when it was visited, nothing otherwise. */
  lemma {:induction false} PiecesUpToGet(b: Board, row: nat, col: nat, q: ChessPosition)
    requires 1 <= row <= 9 && 1 <= col <= 9 && (row <= 8 || col == 1)
    ensures Get(PiecesUpTo(b, row, col), q) == if Before(q, row, col) then Get(b, q) else None
    decreases row, col
  {
    if col > 1 {
      var s := ChessPosition(row, col - 1);
      var prev := PiecesUpTo(b, row, col - 1);
      PiecesUpToGet(b, row, col - 1, q);
      if Get(b, s).Some? {
        PiecesUpToKeys(b, row, col - 1);
        assert IndexOf(prev, s).None? by {
          assert forall i | 0 <= i < |prev| :: prev[i].0 != s;
        }
        IndexOfAppend(prev, (s, Get(b, s)), q);
      }
    } else if row > 1 {
      PiecesUpToGet(b, row - 1, 9, q);
    }
  }

  /** The board the decoder's loop builds, with this set's position and piece decoders. */
  function DecodeEntries(members: seq<(string, Json)>): Option<Board>
  {
    if members == [] then Some([])
    else
      match DecodeEntries(members[..|members| - 1])
      case None => None
      case Some(prev) =>
        var (name, value) := members[|members| - 1];
        match (DecodePosition(name), DecodePieceValue(value))
        case (Some(p), Some(v)) => Some(Put(prev, p, v))
        case _ => None
  }

  /** ChessBoardAdapter.deserialize: the value itself must be an object; each member is added in turn. */
  function DecodeBoard(j: Json): Option<Board>
  {
    match AsObject(j)
    case None => None
    case Some(members) => DecodeEntries(members)
  }

  lemma DecodeEntriesStep(members: seq<(string, Json)>, name: string, value: Json)
    ensures DecodeEntries(members + [(name, value)]) ==
      match (DecodeEntries(members), DecodePosition(name), DecodePieceValue(value))
      case (Some(prev), Some(p), Some(v)) => Some(Put(prev, p, v))
      case _ => None
  {
    assert (members + [(name, value)])[..|members|] == members;
  }

  /** Reading back the comma-shaped encoding rebuilds the occupied squares in order. */
  lemma {:induction false} DecodeEncodedSquares(b: Board, row: nat, col: nat)
    requires 1 <= row <= 9 && 1 <= col <= 9 && (row <= 8 || col == 1)
    ensures DecodeEntries(EncodeUpTo(b, Comma, row, col)) == Some(PiecesUpTo(b, row, col))
    decreases row, col
  {
    if col > 1 {
      var s := ChessPosition(row, col - 1);
      DecodeEncodedSquares(b, row, col - 1);
      if Get(b, s).Some? {
        var piece := Get(b, s).value;
        var prev := PiecesUpTo(b, row, col - 1);
        EncodeSquareAppends(b, Comma, row, col);
        DecodeEntriesStep(EncodeUpTo(b, Comma, row, col - 1), PositionText(Comma, s), EncodePiece(piece));
        CommaRoundTrip(s);
        PieceRoundTrip(piece);
        PiecesUpToKeys(b, row, col - 1);
        assert IndexOf(prev, s).None? by {
          assert forall i | 0 <= i < |prev| :: prev[i].0 != s;
        }
      }
    } else if row > 1 {
      DecodeEncodedSquares(b, row - 1, 9);
    }
  }

  /**
   * With the comma shape the board reads back with exactly the pieces on the 64 squares:
   * entries off the board and null entries are not written, so they are not read back.
   */
  lemma BoardRoundTrip(b: Board, q: ChessPosition)
    ensures DecodeBoard(EncodeBoard(b, Comma)) == Some(PiecesUpTo(b, 9, 1))
    ensures Get(PiecesUpTo(b, 9, 1), q) == if OnBoard(q) then Get(b, q) else None
  {
    DecodeEncodedSquares(b, 9, 1);
    PiecesUpToGet(b, 9, 1, q);
  }

  /** Every name the braced encoding writes is rejected by the comma decoder. */
  lemma {:induction false} BracedNamesRejected(b: Board, row: nat, col: nat)
    requires 1 <= row <= 9 && 1 <= col <= 9 && (row <= 8 || col == 1)
    ensures forall i | 0 <= i < |EncodeUpTo(b, Braced, row, col)| :: DecodePosition(EncodeUpTo(b, Braced, row, col)[i].0).None?
    decreases row, col
  {
    if col > 1 {
      var s := ChessPosition(row, col - 1);
      BracedNamesRejected(b, row, col - 1);
      if Get(b, s).Some? {
        EncodeSquareAppends(b, Braced, row, col);
        BracedRejected(s);
      }
    } else if row > 1 {
      BracedNamesRejected(b, row - 1, 9);
    }
  }

  /** A non-empty list of members whose names are all rejected cannot be read. */
  lemma {:induction false} RejectedNames(members: seq<(string, Json)>)
    requires members != [] && forall i | 0 <= i < |members| :: DecodePosition(members[i].0).None?
    ensures DecodeEntries(members).None?
  {
  }

  /**
   * With the braced shape (what the other adapter set's decoder expects) a board with any piece
   * on the 64 squares cannot be read back.
   */
  lemma BracedBoardFails(b: Board, q: ChessPosition)
    requires OnBoard(q) && Get(b, q).Some?
    ensures DecodeBoard(EncodeBoard(b, Braced)).None?
  {
    var members := EncodeUpTo(b, Braced, 9, 1);
    EncodeBoardContents(b, Braced, q);
    MemberFound(members, PositionText(Braced, q));
    BracedNamesRejected(b, 9, 1);
    RejectedNames(members);
  }

  /** ChessBoardAdapter.deserialize: a new board, and addPiece for each member in order. */
  method DeserializeBoard(j: Json) returns (r: Option<ChessBoard>)
    ensures r.None? <==> DecodeBoard(j).None?
    ensures r.Some? ==> fresh(r.value) && r.value.Valid() && r.value.board == DecodeBoard(j).value
  {
    if !j.JObject? {
      return None;
    }
    var members := j.members;
    var board := new ChessBoard();
    var i := 0;
    while i < |members|
      invariant 0 <= i <= |members|
      invariant fresh(board) && board.Valid()
      invariant DecodeEntries(members[..i]) == Some(board.board)
    {
      var name, value := members[i].0, members[i].1;
      CA.PrefixStep(members, i);
      DecodeEntriesStep(members[..i], name, value);
      var position := DecodePosition(name);
      var piece := DecodePieceValue(value);
      if position.None? || piece.None? {
        DecodeFailurePersists(members, i + 1);
        return None;
      }
      board.AddPiece(position.value, piece.value);
      i := i + 1;
    }
    assert members[..i] == members;
    return Some(board);
  }

  /** Once an entry cannot be read, the whole board cannot. */
  lemma {:induction false} DecodeFailurePersists(members: seq<(string, Json)>, k: nat)
    requires k <= |members| && DecodeEntries(members[..k]).None?
    ensures DecodeEntries(members).None?
    decreases |members| - k
  {
    if k < |members| {
      CA.PrefixStep(members, k);
      DecodeEntriesStep(members[..k], members[k].0, members[k].1);
      DecodeFailurePersists(members, k + 1);
    } else {
      assert members[..k] == members;
    }
  }

  /** ChessGameAdapter.serialize: a null game is JSON null; otherwise the board and the turn, and nothing else. */
  function EncodeGame(g: Option<GameState>, format: PositionFormat): Json
  {
    match g
    case None => JNull
    case Some(game) =>
      JObject([("board", EncodeBoard(game.board, format)), ("teamTurn", JString(TeamColorName(game.teamTurn)))])
  }

  /**
   * ChessGameAdapter.deserialize: JSON null is a null game (`Some(None)`); otherwise a new game
   * whose board and turn are replaced only when those members are present. The last move is
   * never read.
   */
  function DecodeGame(j: Json): Option<Option<GameState>>
  {
    if j.JNull? then Some(None)
    else match AsObject(j)
      case None => None
      case Some(members) =>
        var board, turn := BoardField(members), TurnField(members);
        if board.None? || turn.None? then None
        else Some(Some(GameState(board.value, turn.value, NewGame.lastMove)))
  }

  /** "board": absent keeps the new game's board; a null board is a failure in this model. */
  function BoardField(members: seq<(string, Json)>): Option<Board>
  {
    match Member(members, "board")
    case None => Some(NewGame.board)
    case Some(b) => if b.JNull? then None else DecodeBoard(b)
  }

  /** "teamTurn": absent keeps the new game's turn. */
  function TurnField(members: seq<(string, Json)>): Option<TeamColor>
  {
    match Member(members, "teamTurn")
    case None => Some(NewGame.teamTurn)
    case Some(t) => match AsString(t) case None => None case Some(s) => TeamColorOf(s)
  }

  lemma DecodeGameOf(j: Json, g: GameState)
    requires j.JObject? && g.lastMove.None?
    requires BoardField(j.members) == Some(g.board) && TurnField(j.members) == Some(g.teamTurn)
    ensures DecodeGame(j) == Some(Some(g))
  {
  }

  /**
   * With the comma shape a game reads back with its turn, with the pieces on the 64 squares, and
   * without its last move, which is never written; a null game reads back as null.
   */
  lemma GameRoundTrip(g: GameState, format: PositionFormat)
    ensures DecodeGame(EncodeGame(Some(g), Comma)) == Some(Some(GameState(PiecesUpTo(g.board, 9, 1), g.teamTurn, None)))
    ensures DecodeGame(EncodeGame(None, format)) == Some(None)
  {
    var j := EncodeGame(Some(g), Comma);
    MemberAt(j.members, 0);
    MemberAt(j.members, 1);
    DecodeEncodedSquares(g.board, 9, 1);
    assert BoardField(j.members) == Some(PiecesUpTo(g.board, 9, 1));
    EnumNamesRoundTrip(g.teamTurn, KING, "");
    assert TurnField(j.members) == Some(g.teamTurn);
    DecodeGameOf(j, GameState(PiecesUpTo(g.board, 9, 1), g.teamTurn, None));
  }

  /** An object with neither member reads as a new game. */
  lemma EmptyObjectIsNewGame()
    ensures DecodeGame(JObject([])) == Some(Some(NewGame))
  {
    MemberAbsent([], "board");
    MemberAbsent([], "teamTurn");
  }

  /** A position member: absent or null reads as a null position, which this model counts as a failure. */
  function PositionField(members: seq<(string, Json)>, name: string): Option<ChessPosition>
  {
    match Member(members, name)
    case None => None
    case Some(j) => if j.JNull? then None else (match AsString(j) case None => None case Some(s) => DecodePosition(s))
  }

  /** ChessMoveAdapter.deserialize, with this set's position decoder. */
  function DecodeMove(j: Json): Option<ChessMove>
  {
    match AsObject(j)
    case None => None
    case Some(members) =>
      var start, end, promotion := PositionField(members, "startPosition"), PositionField(members, "endPosition"), CA.PromotionField(members);
      if start.None? || end.None? || promotion.None? then None
      else Some(ChessMove(start.value, end.value, promotion.value))
  }

  lemma PositionFieldOf(members: seq<(string, Json)>, name: string, p: ChessPosition)
    requires Member(members, name) == Some(JString(PositionText(Comma, p)))
    ensures PositionField(members, name) == Some(p)
  {
    CommaRoundTrip(p);
  }

  lemma DecodeMoveOf(j: Json, m: ChessMove)
    requires j.JObject?
    requires PositionField(j.members, "startPosition") == Some(m.startPosition)
    requires PositionField(j.members, "endPosition") == Some(m.endPosition)
    requires CA.PromotionField(j.members) == Some(m.promotionPiece)
    ensures DecodeMove(j) == Some(m)
  {
  }

  /**
   * ChessMoveAdapter.serialize writes what the other set's move encoder writes; with the comma
   * shape every move reads back unchanged.
   */
  lemma MoveRoundTrip(m: ChessMove)
    ensures DecodeMove(CA.EncodeMove(m, Comma)) == Some(m)
  {
    var j := CA.EncodeMove(m, Comma);
    CA.EncodedMoveMembers(m, Comma);
    PositionFieldOf(j.members, "startPosition", m.startPosition);
    PositionFieldOf(j.members, "endPosition", m.endPosition);
    CA.PromotionRoundTrip(m, Comma);
    DecodeMoveOf(j, m);
  }

  /** With the braced shape no move reads back: its start position is rejected. */
  lemma BracedMoveFails(m: ChessMove)
    ensures DecodeMove(CA.EncodeMove(m, Braced)).None?
  {
    var j := CA.EncodeMove(m, Braced);
    CA.EncodedMoveMembers(m, Braced);
    BracedRejected(m.startPosition);
    assert PositionField(j.members, "startPosition").None?;
  }
}
