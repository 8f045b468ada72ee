/**
 * The texts the JSON adapters read and write: enum names (Enum.name / valueOf) and the two
 * shapes of a position's text that the position decoders understand.
 * ChessPosition.java is not part of this model, so which of the two shapes its toString
 * produces is a parameter of every encoder here.
 */
module ChessTexts {
  import opened Wrappers
  import opened JavaInts
  import opened ChessPieces
  import opened ChessMoves
  import opened JavaStrings

  function TeamColorName(c: TeamColor): string
  {
    match c
    case WHITE => "WHITE"
    case BLACK => "BLACK"
  }

  /** TeamColor.valueOf: `None` is the IllegalArgumentException for any other name. */
  function TeamColorOf(s: string): Option<TeamColor>
  {
    if s == "WHITE" then Some(WHITE) else if s == "BLACK" then Some(BLACK) else None
  }

  function PieceTypeName(t: PieceType): string
  {
    match t
    case KING => "KING"
    case QUEEN => "QUEEN"
    case BISHOP => "BISHOP"
    case KNIGHT => "KNIGHT"
    case ROOK => "ROOK"
    case PAWN => "PAWN"
  }

  /** PieceType.valueOf. */
  function PieceTypeOf(s: string): Option<PieceType>
  {
    if s == "KING" then Some(KING)
    else if s == "QUEEN" then Some(QUEEN)
    else if s == "BISHOP" then Some(BISHOP)
    else if s == "KNIGHT" then Some(KNIGHT)
    else if s == "ROOK" then Some(ROOK)
    else if s == "PAWN" then Some(PAWN)
    else None
  }

  /** valueOf accepts exactly the names that name() produces, and inverts it. */
  lemma EnumNamesRoundTrip(c: TeamColor, t: PieceType, s: string)
    ensures TeamColorOf(TeamColorName(c)) == Some(c)
    ensures TeamColorOf(s).Some? ==> TeamColorName(TeamColorOf(s).value) == s
    ensures PieceTypeOf(PieceTypeName(t)) == Some(t)
    ensures PieceTypeOf(s).Some? ==> PieceTypeName(PieceTypeOf(s).value) == s
  {
  }

  /** The two position texts: "ChessPosition{row=R, col=C}" and "R,C". */
  datatype PositionFormat = Braced | Comma

  /** ChessPosition.toString in the given shape. */
  function PositionText(format: PositionFormat, p: ChessPosition): string
  {
    match format
    case Braced => "ChessPosition{row=" + IntToString(p.row) + ", col=" + IntToString(p.col) + "}"
    case Comma => IntToString(p.row) + "," + IntToString(p.col)
  }
}

/** ChessAdapters.java: the Gson adapters for board, piece, position, move and game. */
module ChessAdapters {
  import opened Wrappers
  import opened JavaInts
  import opened ChessPieces
  import opened ChessMoves
  import opened ChessBoards
  import opened ChessGames
  import opened JavaStrings
  import opened Json
  import opened ChessTexts

  /** A member read with getAsString: `None` when the member is absent (a NullPointerException) or not a primitive. */
  function StringField(members: seq<(string, Json)>, name: string): Option<string>
  {
    match Member(members, name)
    case None => None
    case Some(j) => AsString(j)
  }

  /** The integer after '=' in one "name=value" field of the braced shape. */
  function FieldValue(field: string): Option<int32>
  {
    var nameAndValue := SplitOn(field, "=");
    if |nameAndValue| < 2 then None else ParseInt(nameAndValue[1])
  }

  function PositionOf(row: Option<int32>, col: Option<int32>): Option<ChessPosition>
  {
    if row.Some? && col.Some? then Some(ChessPosition(row.value, col.value)) else None
  }

  /** The braced shape: the text between "ChessPosition{" and the last character, split on ", " and then on '='. */
  function DecodeBraced(text: string): Option<ChessPosition>
  {
    if |text| < 15 then None
    else
      var fields := SplitOn(text[14..|text| - 1], ", ");
      if |fields| < 2 then None else PositionOf(FieldValue(fields[0]), FieldValue(fields[1]))
  }

  /** The comma shape: split on ','. */
  function DecodeComma(text: string): Option<ChessPosition>
  {
    var fields := SplitOn(text, ",");
    if |fields| < 2 then None else PositionOf(ParseInt(fields[0]), ParseInt(fields[1]))
  }

  /**
   * ChessPositionAdapter.deserialize: the braced shape when the text starts with
   * "ChessPosition{", the comma shape otherwise. Every exception (index out of range,
   * NumberFormatException) is `None`.
   */
  function DecodePosition(text: string): Option<ChessPosition>
  {
    if StartsWith(text, "ChessPosition{") then DecodeBraced(text) else DecodeComma(text)
  }

  lemma FieldValueOf(name: string, i: int32)
    requires '=' !in name
    ensures FieldValue(name + "=" + IntToString(i)) == Some(i)
  {
    IntToStringRoundTrip(i);
    SplitOnTwoFields(name, "=", IntToString(i));
  }

  /** The braced decoder on a text whose inside splits into two fields. */
  lemma BracedDecode(text: string, rowField: string, colField: string)
    requires StartsWith(text, "ChessPosition{") && |text| >= 15
    requires SplitOn(text[14..|text| - 1], ", ") == [rowField, colField]
    ensures DecodePosition(text) == PositionOf(FieldValue(rowField), FieldValue(colField))
  {
  }

  /** The braced text is "ChessPosition{" and then the two fields, separated by ", ", and "}". */
  lemma BracedText(p: ChessPosition)
    ensures var text := PositionText(Braced, p);
      StartsWith(text, "ChessPosition{") && |text| >= 15 &&
      text[14..|text| - 1] == ("row" + "=" + IntToString(p.row)) + ", " + ("col" + "=" + IntToString(p.col))
  {
    var text := PositionText(Braced, p);
    var inner := ("row" + "=" + IntToString(p.row)) + ", " + ("col" + "=" + IntToString(p.col));
    assert text == "ChessPosition{" + inner + "}";
  }

  lemma BracedRoundTrip(p: ChessPosition)
    ensures DecodePosition(PositionText(Braced, p)) == Some(p)
  {
    var rowField, colField := "row" + "=" + IntToString(p.row), "col" + "=" + IntToString(p.col);
    IntToStringRoundTrip(p.row);
    IntToStringRoundTrip(p.col);
    assert ',' !in rowField && ',' !in colField;
    BracedText(p);
    SplitOnTwoFields(rowField, ", ", colField);
    BracedDecode(PositionText(Braced, p), rowField, colField);
    FieldValueOf("row", p.row);
    FieldValueOf("col", p.col);
  }

  lemma CommaRoundTrip(p: ChessPosition)
    ensures DecodePosition(PositionText(Comma, p)) == Some(p)
  {
    var r := IntToString(p.row);
    var c := IntToString(p.col);
    IntToStringRoundTrip(p.row);
    IntToStringRoundTrip(p.col);
    var text := PositionText(Comma, p);
    assert text[0] == r[0] && r[0] in r;
    assert !StartsWith(text, "ChessPosition{");
    SplitOnTwoFields(r, ",", c);
  }

  /** The position decoder reads back both shapes of toString, for every position. */
  lemma PositionRoundTrip(format: PositionFormat, p: ChessPosition)
    ensures DecodePosition(PositionText(format, p)) == Some(p)
  {
    match format
    case Braced => BracedRoundTrip(p);
    case Comma => CommaRoundTrip(p);
  }

  /** Different positions have different texts in either shape. */
  lemma PositionTextInjective(format: PositionFormat, p: ChessPosition, q: ChessPosition)
    ensures PositionText(format, p) == PositionText(format, q) <==> p == q
  {
    PositionRoundTrip(format, p);
    PositionRoundTrip(format, q);
  }

  /**
   * ChessPieceAdapter.serialize: type, colour and the moved flag, in that order. ChessPiece as
   * shown has no moved flag, so the encoder is given it.
   */
  function EncodePiece(piece: ChessPiece, hasMoved: bool): Json
  {
    JObject([("pieceType", JString(PieceTypeName(piece.pieceType))),
             ("teamColor", JString(TeamColorName(piece.pieceColor))),
             ("hasMoved", JBool(hasMoved))])
  }

  /** ChessPieceAdapter.deserialize: all three members are required. */
  function DecodePiece(j: Json): Option<(ChessPiece, bool)>
  {
    match AsObject(j)
    case None => None
    case Some(members) =>
      var pieceType := match StringField(members, "pieceType") case None => None case Some(s) => PieceTypeOf(s);
      var teamColor := match StringField(members, "teamColor") case None => None case Some(s) => TeamColorOf(s);
      var hasMoved := match Member(members, "hasMoved") case None => None case Some(v) => AsBoolean(v);
      if pieceType.None? || teamColor.None? || hasMoved.None? then None
      else Some((ChessPiece(teamColor.value, pieceType.value), hasMoved.value))
  }

  /** Type, colour and the moved flag are written and read back unchanged. */
  lemma PieceRoundTrip(piece: ChessPiece, hasMoved: bool)
    ensures DecodePiece(EncodePiece(piece, hasMoved)) == Some((piece, hasMoved))
  {
    var members := EncodePiece(piece, hasMoved).members;
    assert "pieceType"[0] != "teamColor"[0];
    MemberAt(members, 0);
    MemberAt(members, 1);
    MemberAt(members, 2);
    EnumNamesRoundTrip(piece.pieceColor, piece.pieceType, "");
  }

  /** context.serialize of a board value: a null piece is JSON null. */
  function EncodePieceValue(v: Option<ChessPiece>, hasMoved: bool): Json
  {
    match v
    case None => JNull
    case Some(piece) => EncodePiece(piece, hasMoved)
  }

  /** context.deserialize of a board value: JSON null is a null piece; the moved flag is read and dropped. */
  function DecodePieceValue(j: Json): Option<Option<ChessPiece>>
  {
    if j.JNull? then Some(None)
    else match DecodePiece(j)
      case None => None
      case Some((piece, _)) => Some(Some(piece))
  }

  /** The "board" object the encoder fills, one member per entry in iteration order. */
  function EncodeEntries(entries: Board, format: PositionFormat, moved: ChessPosition -> bool): seq<(string, Json)>
  {
    if entries == [] then []
    else
      var (p, v) := entries[|entries| - 1];
      Add(EncodeEntries(entries[..|entries| - 1], format, moved), PositionText(format, p), EncodePieceValue(v, moved(p)))
  }

  /** ChessBoardAdapter.serialize: {"board": {<position text>: <piece or null>, ...}}. */
  function EncodeBoard(b: Board, format: PositionFormat, moved: ChessPosition -> bool): Json
  {
    JObject([("board", JObject(EncodeEntries(b, format, moved)))])
  }

  /** The board the decoder's loop builds: each member is put in turn, as addPiece does. */
  function DecodeEntries(members: seq<(string, Json)>): Option<Board>
  {
    if members == [] then Some([])
    else
      match DecodeEntries(members[..|members| - 1])
      case None => None
      case Some(prev) =>
        var (name, value) := members[|members| - 1];
        match (DecodePosition(name), DecodePieceValue(value))
        case (Some(p), Some(v)) => Some(Put(prev, p, v))
        case _ => None
  }

  /** ChessBoardAdapter.deserialize: the outer value and its "board" member must be objects. */
  function DecodeBoard(j: Json): Option<Board>
  {
    match AsObject(j)
    case None => None
    case Some(members) =>
      match Member(members, "board")
      case Some(JObject(boardState)) => DecodeEntries(boardState)
      case _ => None
  }

  /** ChessBoardAdapter.serialize, member by member. */
  method SerializeBoard(src: ChessBoard, format: PositionFormat, moved: ChessPosition -> bool) returns (j: Json)
    ensures j == EncodeBoard(src.board, format, moved)
  {
    var boardState: seq<(string, Json)> := [];
    var i := 0;
    while i < |src.board|
      invariant 0 <= i <= |src.board|
      invariant boardState == EncodeEntries(src.board[..i], format, moved)
    {
      var (position, piece) := src.board[i];
      boardState := Add(boardState, PositionText(format, position), EncodePieceValue(piece, moved(position)));
      assert src.board[..i + 1][..i] == src.board[..i];
      i := i + 1;
    }
    assert src.board[..i] == src.board;
    j := JObject([("board", JObject(boardState))]);
  }

  lemma PrefixStep<T>(s: seq<T>, i: nat)
    requires i < |s|
    ensures s[..i + 1] == s[..i] + [s[i]]
  {
  }

  /** Once an entry cannot be read, the whole board cannot. */
  lemma {:induction false} DecodeFailurePersists(members: seq<(string, Json)>, k: nat)
    requires k <= |members| && DecodeEntries(members[..k]).None?
    ensures DecodeEntries(members).None?
    decreases |members| - k
  {
    if k < |members| {
      assert members[..k + 1][..k] == members[..k];
      DecodeFailurePersists(members, k + 1);
    } else {
      assert members[..k] == members;
    }
  }

  /** ChessBoardAdapter.deserialize: a new board, and addPiece for each member in order. */
  method DeserializeBoard(j: Json) returns (r: Option<ChessBoard>)
    ensures r.None? <==> DecodeBoard(j).None?
    ensures r.Some? ==> fresh(r.value) && r.value.Valid() && r.value.board == DecodeBoard(j).value
  {
    if !j.JObject? {
      return None;
    }
    var boardState := Member(j.members, "board");
    if boardState.None? || !boardState.value.JObject? {
      return None;
    }
    var members := boardState.value.members;
    var board := new ChessBoard();
    var i := 0;
    while i < |members|
      invariant 0 <= i <= |members|
      invariant fresh(board) && board.Valid()
      invariant DecodeEntries(members[..i]) == Some(board.board)
    {
      var name, value := members[i].0, members[i].1;
      PrefixStep(members, i);
      DecodeEntriesStep(members[..i], name, value);
      var position := DecodePosition(name);
      var piece := DecodePieceValue(value);
      if position.None? || piece.None? {
        DecodeFailurePersists(members, i + 1);
        return None;
      }
      board.AddPiece(position.value, piece.value);
      i := i + 1;
    }
    assert members[..i] == members;
    return Some(board);
  }

  /** Appending a member under a new name. */
  lemma {:induction false} AddNewName(members: seq<(string, Json)>, name: string, value: Json)
    requires forall i | 0 <= i < |members| :: members[i].0 != name
    ensures Add(members, name, value) == members + [(name, value)]
  {
    if members != [] {
      AddNewName(members[1..], name, value);
    }
  }

  /** With distinct positions, the encoder's last entry lands at the end under a new name. */
  lemma EncodeEntriesLast(entries: Board, format: PositionFormat, moved: ChessPosition -> bool)
    requires DistinctKeys(entries) && entries != []
    ensures var (p, v) := entries[|entries| - 1];
      EncodeEntries(entries, format, moved) ==
      EncodeEntries(entries[..|entries| - 1], format, moved) + [(PositionText(format, p), EncodePieceValue(v, moved(p)))]
    decreases |entries|, 0
  {
    var init := entries[..|entries| - 1];
    var (p, v) := entries[|entries| - 1];
    EncodeEntriesShape(init, format, moved);
    var prev := EncodeEntries(init, format, moved);
    forall i | 0 <= i < |prev|
      ensures prev[i].0 != PositionText(format, p)
    {
      PositionTextInjective(format, init[i].0, p);
    }
    AddNewName(prev, PositionText(format, p), EncodePieceValue(v, moved(p)));
  }

  /** The encoded entries of a board with distinct positions: one member per entry, in order. */
  lemma {:induction false} EncodeEntriesShape(entries: Board, format: PositionFormat, moved: ChessPosition -> bool)
    requires DistinctKeys(entries)
    ensures |EncodeEntries(entries, format, moved)| == |entries|
    ensures forall i | 0 <= i < |entries| ::
      EncodeEntries(entries, format, moved)[i] == (PositionText(format, entries[i].0), EncodePieceValue(entries[i].1, moved(entries[i].0)))
    decreases |entries|, 1
  {
    if entries != [] {
      EncodeEntriesShape(entries[..|entries| - 1], format, moved);
      EncodeEntriesLast(entries, format, moved);
    }
  }

  /** A null piece is read back as null, and a piece as the same piece. */
  lemma PieceValueRoundTrip(v: Option<ChessPiece>, hasMoved: bool)
    ensures DecodePieceValue(EncodePieceValue(v, hasMoved)) == Some(v)
  {
    if v.Some? {
      PieceRoundTrip(v.value, hasMoved);
    }
  }

  /** One more member read by the board decoder's loop. */
  lemma DecodeEntriesStep(members: seq<(string, Json)>, name: string, value: Json)
    ensures DecodeEntries(members + [(name, value)]) ==
      match (DecodeEntries(members), DecodePosition(name), DecodePieceValue(value))
      case (Some(prev), Some(p), Some(v)) => Some(Put(prev, p, v))
      case _ => None
  {
    assert (members + [(name, value)])[..|members|] == members;
  }

  /** Putting the last entry of a list with distinct positions back onto the rest rebuilds the list. */
  lemma PutLastEntry(entries: Board)
    requires DistinctKeys(entries) && entries != []
    ensures Put(entries[..|entries| - 1], entries[|entries| - 1].0, entries[|entries| - 1].1) == entries
  {
    var init := entries[..|entries| - 1];
    var p := entries[|entries| - 1].0;
    assert forall i | 0 <= i < |init| :: init[i].0 != p;
    assert IndexOf(init, p).None?;
    assert init + [entries[|entries| - 1]] == entries;
  }

  /** Decoding the encoded entries rebuilds exactly the same entry list. */
  lemma {:induction false} DecodeEncodedEntries(entries: Board, format: PositionFormat, moved: ChessPosition -> bool)
    requires DistinctKeys(entries)
    ensures DecodeEntries(EncodeEntries(entries, format, moved)) == Some(entries)
    decreases |entries|
  {
    if entries != [] {
      var init := entries[..|entries| - 1];
      var (p, v) := entries[|entries| - 1];
      var prev := EncodeEntries(init, format, moved);
      var name, value := PositionText(format, p), EncodePieceValue(v, moved(p));
      EncodeEntriesLast(entries, format, moved);
      DecodeEncodedEntries(init, format, moved);
      PositionRoundTrip(format, p);
      PieceValueRoundTrip(v, moved(p));
      DecodeEntriesStep(prev, name, value);
      PutLastEntry(entries);
    }
  }

  /**
   * A board whose entries have distinct positions is read back as the same entries in the same
   * order, null pieces included, whatever the moved flags and the shape of the position text.
   */
  lemma BoardRoundTrip(b: Board, format: PositionFormat, moved: ChessPosition -> bool)
    requires DistinctKeys(b)
    ensures DecodeBoard(EncodeBoard(b, format, moved)) == Some(b)
  {
    DecodeEncodedEntries(b, format, moved);
  }

  /** ChessMoveAdapter.serialize: both positions, and the promotion piece only when there is one. */
  function EncodeMove(m: ChessMove, format: PositionFormat): Json
  {
    JObject([("startPosition", JString(PositionText(format, m.startPosition))),
             ("endPosition", JString(PositionText(format, m.endPosition)))] +
            match m.promotionPiece
            case None => []
            case Some(t) => [("promotionPiece", JString(PieceTypeName(t)))])
  }

  /** A position member: absent or null reads as a null position, which this model counts as a failure. */
  function PositionField(members: seq<(string, Json)>, name: string): Option<ChessPosition>
  {
    match Member(members, name)
    case Some(j) => if j.JNull? then None else (match AsString(j) case None => None case Some(s) => DecodePosition(s))
    case None => None
  }

  /** ChessMoveAdapter.deserialize: no "promotionPiece" member means no promotion. */
  function DecodeMove(j: Json): Option<ChessMove>
  {
    match AsObject(j)
    case None => None
    case Some(members) =>
      var start := PositionField(members, "startPosition");
      var end := PositionField(members, "endPosition");
      var promotion := PromotionField(members);
      if start.None? || end.None? || promotion.None? then None
      else Some(ChessMove(start.value, end.value, promotion.value))
  }

  /** The members of an encoded move, looked up by name. */
  lemma EncodedMoveMembers(m: ChessMove, format: PositionFormat)
    ensures var members := EncodeMove(m, format).members;
      Member(members, "startPosition") == Some(JString(PositionText(format, m.startPosition))) &&
      Member(members, "endPosition") == Some(JString(PositionText(format, m.endPosition))) &&
      Member(members, "promotionPiece") == (match m.promotionPiece case None => None case Some(t) => Some(JString(PieceTypeName(t))))
  {
    var members := EncodeMove(m, format).members;
    MemberAt(members, 0);
    MemberAt(members, 1);
    if m.promotionPiece.Some? {
      MemberAt(members, 2);
    } else {
      MemberAbsent(members, "promotionPiece");
    }
  }

  lemma PositionFieldOf(members: seq<(string, Json)>, name: string, format: PositionFormat, p: ChessPosition)
    requires Member(members, name) == Some(JString(PositionText(format, p)))
    ensures PositionField(members, name) == Some(p)
  {
    PositionRoundTrip(format, p);
  }

  /** The promotion member as the move decoder reads it. */
  function PromotionField(members: seq<(string, Json)>): Option<Option<PieceType>>
  {
    match Member(members, "promotionPiece")
    case None => Some(None)
    case Some(p) =>
      match AsString(p)
      case None => None
      case Some(s) => match PieceTypeOf(s) case None => None case Some(t) => Some(Some(t))
  }

  lemma PromotionRoundTrip(m: ChessMove, format: PositionFormat)
    ensures PromotionField(EncodeMove(m, format).members) == Some(m.promotionPiece)
  {
    EncodedMoveMembers(m, format);
    if m.promotionPiece.Some? {
      EnumNamesRoundTrip(WHITE, m.promotionPiece.value, "");
    }
  }

  lemma DecodeMoveOf(j: Json, m: ChessMove)
    requires j.JObject?
    requires PositionField(j.members, "startPosition") == Some(m.startPosition)
    requires PositionField(j.members, "endPosition") == Some(m.endPosition)
    requires PromotionField(j.members) == Some(m.promotionPiece)
    ensures DecodeMove(j) == Some(m)
  {
  }

  /** The promotion member is written exactly when there is a promotion piece, and every move is read back unchanged. */
  lemma MoveRoundTrip(m: ChessMove, format: PositionFormat)
    ensures Member(EncodeMove(m, format).members, "promotionPiece").Some? <==> m.promotionPiece.Some?
    ensures DecodeMove(EncodeMove(m, format)) == Some(m)
  {
    var members := EncodeMove(m, format).members;
    EncodedMoveMembers(m, format);
    PositionFieldOf(members, "startPosition", format, m.startPosition);
    PositionFieldOf(members, "endPosition", format, m.endPosition);
    PromotionRoundTrip(m, format);
    DecodeMoveOf(EncodeMove(m, format), m);
  }

  /**
   * ChessGameAdapter.serialize: board, turn, last move (null when there is none) and the game-over
   * flag. ChessGame as shown has no game-over flag, so the encoder is given it.
   */
  function EncodeGame(g: GameState, isGameOver: bool, format: PositionFormat, moved: ChessPosition -> bool): Json
  {
    JObject([("board", EncodeBoard(g.board, format, moved)),
             ("teamTurn", JString(TeamColorName(g.teamTurn))),
             ("lastMove", match g.lastMove case None => JNull case Some(m) => EncodeMove(m, format)),
             ("isGameOver", JBool(isGameOver))])
  }

  /**
   * ChessGameAdapter.deserialize: board and turn are required; the last move is read only when
   * present and not null, and the game-over flag only when present (`None` leaves the default).
   */
  function DecodeGame(j: Json): Option<(GameState, Option<bool>)>
  {
    match AsObject(j)
    case None => None
    case Some(members) =>
      var board, turn, lastMove, gameOver := BoardField(members), TurnField(members), LastMoveField(members), GameOverField(members);
      if board.None? || turn.None? || lastMove.None? || gameOver.None? then None
      else Some((GameState(board.value, turn.value, lastMove.value), gameOver.value))
  }

  /** "board": required; a null board is a failure in this model. */
  function BoardField(members: seq<(string, Json)>): Option<Board>
  {
    match Member(members, "board")
    case None => None
    case Some(b) => if b.JNull? then None else DecodeBoard(b)
  }

  /** "teamTurn": required, and must name a colour. */
  function TurnField(members: seq<(string, Json)>): Option<TeamColor>
  {
    match StringField(members, "teamTurn")
    case None => None
    case Some(s) => TeamColorOf(s)
  }

  /** "lastMove": absent or null means no last move. */
  function LastMoveField(members: seq<(string, Json)>): Option<Option<ChessMove>>
  {
    match Member(members, "lastMove")
    case None => Some(None)
    case Some(m) =>
      if m.JNull? then Some(None)
      else match DecodeMove(m)
        case None => None
        case Some(mv) => Some(Some(mv))
  }

  /** "isGameOver": absent means the flag is not set (`Some(None)`). */
  function GameOverField(members: seq<(string, Json)>): Option<Option<bool>>
  {
    match Member(members, "isGameOver")
    case None => Some(None)
    case Some(v) =>
      match AsBoolean(v)
      case None => None
      case Some(b) => Some(Some(b))
  }

  /** The members of an encoded game, looked up by name. */
  lemma EncodedGameMembers(g: GameState, isGameOver: bool, format: PositionFormat, moved: ChessPosition -> bool)
    ensures var members := EncodeGame(g, isGameOver, format, moved).members;
      Member(members, "board") == Some(EncodeBoard(g.board, format, moved)) &&
      Member(members, "teamTurn") == Some(JString(TeamColorName(g.teamTurn))) &&
      Member(members, "lastMove") == Some(match g.lastMove case None => JNull case Some(m) => EncodeMove(m, format)) &&
      Member(members, "isGameOver") == Some(JBool(isGameOver))
  {
    var members := EncodeGame(g, isGameOver, format, moved).members;
    assert "teamTurn"[0] != "lastMove"[0];
    MemberAt(members, 0);
    MemberAt(members, 1);
    MemberAt(members, 2);
    MemberAt(members, 3);
  }

  lemma LastMoveRoundTrip(g: GameState, isGameOver: bool, format: PositionFormat, moved: ChessPosition -> bool)
    ensures LastMoveField(EncodeGame(g, isGameOver, format, moved).members) == Some(g.lastMove)
  {
    EncodedGameMembers(g, isGameOver, format, moved);
    if g.lastMove.Some? {
      MoveRoundTrip(g.lastMove.value, format);
    }
  }

  lemma BoardFieldOf(members: seq<(string, Json)>, b: Board, format: PositionFormat, moved: ChessPosition -> bool)
    requires DistinctKeys(b) && Member(members, "board") == Some(EncodeBoard(b, format, moved))
    ensures BoardField(members) == Some(b)
  {
    BoardRoundTrip(b, format, moved);
  }

  lemma TurnFieldOf(members: seq<(string, Json)>, c: TeamColor)
    requires Member(members, "teamTurn") == Some(JString(TeamColorName(c)))
    ensures TurnField(members) == Some(c)
  {
    EnumNamesRoundTrip(c, KING, "");
  }

  lemma DecodeGameOf(j: Json, g: GameState, gameOver: Option<bool>)
    requires j.JObject?
    requires BoardField(j.members) == Some(g.board) && TurnField(j.members) == Some(g.teamTurn)
    requires LastMoveField(j.members) == Some(g.lastMove) && GameOverField(j.members) == Some(gameOver)
    ensures DecodeGame(j) == Some((g, gameOver))
  {
  }

  /** A game whose board has distinct positions is read back whole: board, turn, last move and flag. */
  lemma GameRoundTrip(g: GameState, isGameOver: bool, format: PositionFormat, moved: ChessPosition -> bool)
    requires DistinctKeys(g.board)
    ensures DecodeGame(EncodeGame(g, isGameOver, format, moved)) == Some((g, Some(isGameOver)))
  {
    var j := EncodeGame(g, isGameOver, format, moved);
    EncodedGameMembers(g, isGameOver, format, moved);
    BoardFieldOf(j.members, g.board, format, moved);
    TurnFieldOf(j.members, g.teamTurn);
    LastMoveRoundTrip(g, isGameOver, format, moved);
    assert GameOverField(j.members) == Some(Some(isGameOver));
    DecodeGameOf(j, g, Some(isGameOver));
  }

  /** Without "lastMove" (or with null) there is no last move, and without "isGameOver" the flag keeps its default. */
  lemma GameOptionalMembers(boardJson: Json, turn: TeamColor)
    requires DecodeBoard(boardJson).Some?
    ensures DecodeGame(JObject([("board", boardJson), ("teamTurn", JString(TeamColorName(turn)))])) ==
      Some((GameState(DecodeBoard(boardJson).value, turn, None), None))
    ensures DecodeGame(JObject([("board", boardJson), ("teamTurn", JString(TeamColorName(turn))), ("lastMove", JNull)])) ==
      Some((GameState(DecodeBoard(boardJson).value, turn, None), None))
  {
    EnumNamesRoundTrip(turn, KING, "");
    var g := GameState(DecodeBoard(boardJson).value, turn, None);
    var short := [("board", boardJson), ("teamTurn", JString(TeamColorName(turn)))];
    var long := [("board", boardJson), ("teamTurn", JString(TeamColorName(turn))), ("lastMove", JNull)];
    assert "teamTurn"[0] != "lastMove"[0];
    MemberAt(short, 0);
    MemberAt(short, 1);
    MemberAt(long, 0);
    MemberAt(long, 1);
    MemberAt(long, 2);
    MemberAbsent(short, "lastMove");
    MemberAbsent(short, "isGameOver");
    MemberAbsent(long, "isGameOver");
    DecodeGameOf(JObject(short), g, None);
    DecodeGameOf(JObject(long), g, None);
  }
}
