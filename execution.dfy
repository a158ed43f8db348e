/**
 * The move token and the move executor: makeMove (pkg/chessboard/chessboard.go:738-775)
 * and the draft's validate-only makeMove (chessboard.go:529-569).
 *
 * A token is the version tag '0', the from-square and the to-square as file letter
 * and rank digit, and a promotion digit: the promotion is the piece code
 * `move[5] - '0'` (line 757), 0 for none. Corrections against the code as written:
 *  - files count from '`' and ranks from '0' (lines 750-755), so "a1" is the pair
 *    (1, 1) and the h-file and eighth rank are off the board; the model reads 'a'
 *    and '1' as 0, like the rest of the program;
 *  - the length guard accepts five characters (line 739) and then reads the sixth
 *    (line 757); the model reports a five-character token as too short;
 *  - a promotion code above 12 names no bitboard (line 772 would index outside
 *    BoardState); the model reports it as a malformed promotion.
 * The source then moves the piece and puts the promotion piece (lines 768-772).
 * Additions, which the source does not perform and which the rules of chess require
 * (FIDE Laws of Chess, Article 3; PGN Standard, section 16.1.3): the pawn taken en
 * passant is removed, a castling rook is moved beside the king, castling rights are
 * withdrawn when a king or rook leaves, or a rook is taken on, its home square, the
 * en-passant target is set after a double push, the clocks are advanced and the
 * side to move changes.
 */
module Execution {
  import opened Wrappers
  import opened Coords
  import opened Pieces
  import opened Game
  import opened Attacks
  import opened Legality
  import opened MoveGen

  datatype MoveError =
    | TooShort             // "Invalid move string"
    | BadVersion           // "Invalid version of move"
    | BadPromotion         // a promotion code that names no piece kind
    | Illegal              // "the move is Illegal"
    | NoPieceOnFromSquare  // the draft's "No piece encountered in from square"

  // ---- the token ----

  /** A square of the token: file letter from 'a', rank digit from '1'. */
  function TokenSquare(file: char, rank: char): Pair {
    Pair(file as int - 'a' as int, rank as int - '1' as int)
  }

  /** The square decoding as written (lines 750-755): files from '`', ranks from '0'. */
  function TokenSquareAsWritten(file: char, rank: char): Pair {
    Pair(file as int - '`' as int, rank as int - '0' as int)
  }

  /** As written, "a1" decodes to b2 and "h8" is off the board; corrected, they are a1 and h8. */
  lemma TokenSquareAsWrittenMisses()
    ensures TokenSquareAsWritten('a', '1') == Pair(1, 1) && TokenSquare('a', '1') == A1
    ensures !InBounds(TokenSquareAsWritten('h', '8')) && TokenSquare('h', '8') == H8
  {
  }

  /** The length guard as written (line 739). */
  predicate LengthGuardAsWritten(t: string) {
    |t| >= 5
  }

  /** A five-character token passes the guard as written although it has no sixth character to read. */
  lemma LengthGuardAsWrittenMisses()
    ensures LengthGuardAsWritten("0e2e4") && |"0e2e4"| <= 5
  {
  }

  /** The promotion digit read as a piece code, when it is one. */
  function PromotionCode(c: char): (r: Option<Kind>)
    ensures r.Some? <==> '0' as int <= c as int <= '0' as int + 12
    ensures r.Some? ==> r.value + '0' as int == c as int
  {
    var code := c as int - '0' as int;
    if 0 <= code <= 12 then Some(code) else None
  }

  /**
   * The token decoding of makeMove (lines 739-761), with the length guard at the
   * sixth character and digit codes 0..12. A code above 12 is rejected here, before
   * the legality check; the source checks legality first (line 764) and only then
   * indexes BoardState with the code (line 771).
   */
  function ParseToken(t: string): (r: Result<Move, MoveError>)
    ensures r.Ok? <==> |t| >= 6 && t[0] == '0' && PromotionCode(t[5]).Some?
    ensures r.Ok? ==> (r.value.from == TokenSquare(t[1], t[2]) && r.value.to == TokenSquare(t[3], t[4])
      && r.value.promotion + '0' as int == t[5] as int)
    ensures r == Err(TooShort) <==> |t| < 5 || (|t| == 5 && t[0] == '0')
    ensures r == Err(BadVersion) <==> |t| >= 5 && t[0] != '0'
  {
    if |t| < 5 then Err(TooShort)
    else if t[0] != '0' then Err(BadVersion)
    else if |t| < 6 then Err(TooShort)
    else match PromotionCode(t[5])
      case None => Err(BadPromotion)
      case Some(k) => Ok(Move(TokenSquare(t[1], t[2]), TokenSquare(t[3], t[4]), k))
  }

  /** The token of a move between two squares of the board. */
  function MoveToken(m: Move): (t: string)
    requires InBounds(m.from) && InBounds(m.to)
    ensures |t| == 6 && t[0] == '0'
  {
    ['0'] + SquareName(m.from) + SquareName(m.to) + [(m.promotion + '0' as int) as char]
  }

  /** Reading the token of a move gives the move back. */
  lemma ParseMoveToken(m: Move)
    requires InBounds(m.from) && InBounds(m.to)
    ensures ParseToken(MoveToken(m)) == Ok(m)
  {
    var t := MoveToken(m);
    assert t[1..3] == SquareName(m.from) && t[3..5] == SquareName(m.to);
    SqRoundTrip(m.from, t[1..3]);
    SqRoundTrip(m.to, t[3..5]);
  }

  /** A token that reads as a move between squares of the board is that move's token, up to trailing characters. */
  lemma MoveTokenOfParse(t: string)
    requires ParseToken(t).Ok? && InBounds(ParseToken(t).value.from) && InBounds(ParseToken(t).value.to)
    ensures MoveToken(ParseToken(t).value) == t[..6]
  {
    var m := ParseToken(t).value;
    var u := MoveToken(m);
    forall i | 0 <= i < 6 ensures u[i] == t[i] {
      SqRoundTrip(m.from, t[1..3]);
      SqRoundTrip(m.to, t[3..5]);
    }
  }

  // ---- applying a move ----

  /** putPiece(to, getPiece(from)) then erasePiece(from) (lines 768-769). */
  function Relocate(s: Squares, from: Pair, to: Pair): (r: Squares)
    requires InBounds(from) && InBounds(to)
    ensures forall q :: PieceAt(r, q) == if q == from then EMPTY else if q == to then PieceAt(s, from) else PieceAt(s, q)
  {
    Erase(Put(s, to, PieceAt(s, from)), from)
  }

  /** The board after the three steps the source performs (lines 768-772). */
  function SourceBoard(pos: Position, m: Move): Squares
    requires InBounds(m.from) && InBounds(m.to)
  {
    var s := Relocate(pos.squares, m.from, m.to);
    if m.promotion != EMPTY then Put(s, m.to, m.promotion) else s
  }

  /** The home square of a castling rook, and the square it goes to. */
  function RookFrom(c: Castle): (p: Pair)
    ensures InBounds(p)
  {
    match c
    case WhiteKingSide => H1
    case WhiteQueenSide => A1
    case BlackKingSide => H8
    case BlackQueenSide => A8
  }

  function RookTo(c: Castle): (p: Pair)
    ensures InBounds(p)
  {
    match c
    case WhiteKingSide => F1
    case WhiteQueenSide => D1
    case BlackKingSide => F8
    case BlackQueenSide => D8
  }

  /** The board after the move, with the additions for en passant and castling. */
  function AppliedBoard(pos: Position, m: Move): Squares
    requires InBounds(m.from) && InBounds(m.to)
  {
    var s := SourceBoard(pos, m);
    var passed := PassedPawnSquare(m);
    var s' := if IsEnPassantCapture(pos, m) && InBounds(passed) then Erase(s, passed) else s;
    match CastleOf(PieceAt(pos.squares, m.from), m)
    case Some(c) => Relocate(s', RookFrom(c), RookTo(c))
    case None => s'
  }

  /** The en-passant target after a move: the square passed over by a double push. */
  function NextEnPassant(pos: Position, m: Move): Option<Pair> {
    if IsPawn(PieceAt(pos.squares, m.from)) && m.from.col == m.to.col && Abs(m.to.row - m.from.row) == 2
    then Some(Pair(m.from.col, (m.from.row + m.to.row) / 2))
    else None
  }

  /** makeMove after a legal token: the board updated and, as additions, the rest of the position. */
  function ApplyMove(pos: Position, m: Move): Position
    requires InBounds(m.from) && InBounds(m.to)
  {
    var piece := PieceAt(pos.squares, m.from);
    var capture := PieceAt(pos.squares, m.to) != EMPTY || IsEnPassantCapture(pos, m);
    Position(
      AppliedBoard(pos, m),
      !pos.whiteToMove,
      NextEnPassant(pos, m),
      pos.blackKingCastle && piece != BKING && m.from != H8 && m.to != H8,
      pos.blackQueenCastle && piece != BKING && m.from != A8 && m.to != A8,
      pos.whiteKingCastle && piece != WKING && m.from != H1 && m.to != H1,
      pos.whiteQueenCastle && piece != WKING && m.from != A1 && m.to != A1,
      if IsPawn(piece) || capture then 0 else pos.halfmoveClock + 1,
      if pos.whiteToMove then pos.fullmoveCounter else pos.fullmoveCounter + 1)
  }

  /**
   * The rest of the position after a move of `piece`, told whether it captures: the
   * side to move flips, a double push leaves an en-passant target, a king or rook
   * move or a capture on a rook's home square withdraws rights, the halfmove clock
   * restarts on a pawn move or a capture, the fullmove number grows after Black moves.
   */
  function NextRecords(pos: Position, m: Move, piece: Kind, capture: bool): Position {
    pos.(whiteToMove := !pos.whiteToMove,
      enPassant := if IsPawn(piece) && m.from.col == m.to.col && Abs(m.to.row - m.from.row) == 2
        then Some(Pair(m.from.col, (m.from.row + m.to.row) / 2)) else None,
      blackKingCastle := pos.blackKingCastle && piece != BKING && m.from != H8 && m.to != H8,
      blackQueenCastle := pos.blackQueenCastle && piece != BKING && m.from != A8 && m.to != A8,
      whiteKingCastle := pos.whiteKingCastle && piece != WKING && m.from != H1 && m.to != H1,
      whiteQueenCastle := pos.whiteQueenCastle && piece != WKING && m.from != A1 && m.to != A1,
      halfmoveClock := if IsPawn(piece) || capture then 0 else pos.halfmoveClock + 1,
      fullmoveCounter := if pos.whiteToMove then pos.fullmoveCounter else pos.fullmoveCounter + 1)
  }

  /** ApplyMove in two steps: the board first, then the records of the moving piece and the capture. */
  lemma ApplyMoveInSteps(pos: Position, m: Move)
    requires InBounds(m.from) && InBounds(m.to)
    ensures ApplyMove(pos, m) == NextRecords(pos.(squares := AppliedBoard(pos, m)), m, PieceAt(pos.squares, m.from),
      PieceAt(pos.squares, m.to) != EMPTY || IsEnPassantCapture(pos, m))
  {
  }

  /** A move that passes the gates of the legality checker lies on the board and leaves its square. */
  lemma GatedMoveMoves(pos: Position, m: Move)
    requires Gates(pos, m)
    ensures InBounds(m.from) && InBounds(m.to) && m.from != m.to
  {
  }

  /** makeMove: decode the token, reject an illegal move, otherwise apply it. */
  function MakeMove(pos: Position, t: string): (r: Result<Position, MoveError>)
  {
    var m :- ParseToken(t);
    if !IsLegal(pos, m) then Err(Illegal)
    else Ok(ApplyMove(pos, m))
  }

  // ---- properties ----

  /** makeMove fails exactly when the token is malformed or the move illegal, and otherwise applies the move. */
  lemma MakeMoveOutcome(pos: Position, t: string)
    ensures MakeMove(pos, t).Ok? <==> ParseToken(t).Ok? && IsLegal(pos, ParseToken(t).value)
    ensures ParseToken(t).Err? ==> MakeMove(pos, t) == Err(ParseToken(t).error)
    ensures ParseToken(t).Ok? && !IsLegal(pos, ParseToken(t).value) ==> MakeMove(pos, t) == Err(Illegal)
    ensures MakeMove(pos, t).Ok? ==> MakeMove(pos, t).value == ApplyMove(pos, ParseToken(t).value)
  {
  }

  /**
   * An ordinary move: the from-square is empty, the to-square holds the moving piece
   * or the promotion piece, the pawn taken en passant is gone, and nothing else
   * changes.
   */
  lemma AppliedBoardContents(pos: Position, m: Move, p: Pair)
    requires Gates(pos, m) && CastleOf(PieceAt(pos.squares, m.from), m).None?
    ensures PieceAt(AppliedBoard(pos, m), p) ==
        (if p == m.to then (if m.promotion != EMPTY then m.promotion else PieceAt(pos.squares, m.from))
         else if p == m.from then EMPTY
         else if IsEnPassantCapture(pos, m) && p == PassedPawnSquare(m) then EMPTY
         else PieceAt(pos.squares, p))
  {
    GatedMoveMoves(pos, m);
    var passed := PassedPawnSquare(m);
    if IsEnPassantCapture(pos, m) && InBounds(passed) {
      assert passed != m.to;
    }
  }

  /** The squares a castling touches are four different squares. */
  lemma CastlingSquares(m: Move, c: Castle, piece: Kind)
    requires CastleOf(piece, m) == Some(c)
    ensures m.from != m.to && m.from != RookFrom(c) && m.from != RookTo(c)
    ensures m.to != RookFrom(c) && m.to != RookTo(c) && RookFrom(c) != RookTo(c)
  {
  }

  /**
   * A castling: the king stands on its destination, the rook beside it on the other
   * side, both home squares are empty, and nothing else changes.
   */
  lemma CastlingContents(pos: Position, m: Move, c: Castle, p: Pair)
    requires Gates(pos, m) && CastleOf(PieceAt(pos.squares, m.from), m) == Some(c)
    ensures PieceAt(AppliedBoard(pos, m), p) ==
        (if p == m.to then PieceAt(pos.squares, m.from)
         else if p == RookTo(c) then PieceAt(pos.squares, RookFrom(c))
         else if p == m.from || p == RookFrom(c) then EMPTY
         else PieceAt(pos.squares, p))
  {
    CastlingSquares(m, c, PieceAt(pos.squares, m.from));
    assert m.promotion == EMPTY;
    assert !IsEnPassantCapture(pos, m);
    var s := SourceBoard(pos, m);
    assert s == Relocate(pos.squares, m.from, m.to);
  }

  /** Castling rights are only ever withdrawn: a king move withdraws both of its side's, and a move from or onto a corner withdraws that corner's right. */
  lemma RightsOnlyWithdrawn(pos: Position, m: Move)
    requires InBounds(m.from) && InBounds(m.to)
    ensures var q := ApplyMove(pos, m);
      (q.whiteKingCastle ==> pos.whiteKingCastle) && (q.whiteQueenCastle ==> pos.whiteQueenCastle)
      && (q.blackKingCastle ==> pos.blackKingCastle) && (q.blackQueenCastle ==> pos.blackQueenCastle)
    ensures PieceAt(pos.squares, m.from) == WKING ==> !ApplyMove(pos, m).whiteKingCastle && !ApplyMove(pos, m).whiteQueenCastle
    ensures PieceAt(pos.squares, m.from) == BKING ==> !ApplyMove(pos, m).blackKingCastle && !ApplyMove(pos, m).blackQueenCastle
    ensures m.from == H1 || m.to == H1 ==> !ApplyMove(pos, m).whiteKingCastle
    ensures m.from == A1 || m.to == A1 ==> !ApplyMove(pos, m).whiteQueenCastle
    ensures m.from == H8 || m.to == H8 ==> !ApplyMove(pos, m).blackKingCastle
    ensures m.from == A8 || m.to == A8 ==> !ApplyMove(pos, m).blackQueenCastle
  {
  }

  /**
   * The side to move changes, the fullmove number grows after Black's move only, the
   * halfmove clock restarts exactly on a pawn move or a capture and otherwise grows by
   * one, and an en-passant target is set exactly after a double push, on the square
   * passed over.
   */
  lemma ApplyMoveCounters(pos: Position, m: Move)
    requires InBounds(m.from) && InBounds(m.to) && pos.halfmoveClock >= 0
    ensures var q := ApplyMove(pos, m);
      var piece := PieceAt(pos.squares, m.from);
      var doublePush := IsPawn(piece) && m.from.col == m.to.col && Abs(m.to.row - m.from.row) == 2;
      q.whiteToMove == !pos.whiteToMove
      && q.fullmoveCounter == pos.fullmoveCounter + (if pos.whiteToMove then 0 else 1)
      && (q.halfmoveClock == 0 <==> IsPawn(piece) || PieceAt(pos.squares, m.to) != EMPTY || IsEnPassantCapture(pos, m))
      && (q.halfmoveClock != 0 ==> q.halfmoveClock == pos.halfmoveClock + 1)
      && (q.enPassant.Some? <==> doublePush)
      && (q.enPassant.Some? ==> q.enPassant.value.col == m.from.col && 2 * q.enPassant.value.row == m.from.row + m.to.row)
  {
  }

  /** Without a castling or a promotion, the board after the move is the legality checker's scratch board. */
  lemma AppliedIsSimulated(pos: Position, m: Move)
    requires Gates(pos, m) && CastleOf(PieceAt(pos.squares, m.from), m).None? && m.promotion == EMPTY
    ensures AppliedBoard(pos, m) == Simulated(pos, m)
  {
    GatedMoveMoves(pos, m);
    var a := AppliedBoard(pos, m);
    var b := Simulated(pos, m);
    forall n | 0 <= n < 64 ensures a[n] == b[n] {
      var q := IntToPair(n);
      AppliedBoardContents(pos, m, q);
      SimulatedContents(pos, m, q);
    }
  }

  /**
   * Without a castling, the board after the move differs from the legality checker's
   * scratch board at most on `to`, where the pawn of the scratch board has become the
   * promotion piece of the same colour: the opponent sees the same board.
   */
  lemma AppliedLooksSimulated(pos: Position, m: Move)
    requires Gates(pos, m) && CastleOf(PieceAt(pos.squares, m.from), m).None?
    ensures SameToOpponent(AppliedBoard(pos, m), Simulated(pos, m), pos.whiteToMove)
  {
    GatedMoveMoves(pos, m);
    var piece := PieceAt(pos.squares, m.from);
    var a := AppliedBoard(pos, m);
    var b := Simulated(pos, m);
    if m.promotion != EMPTY {
      assert IsPromotionSquare(piece, m.to) && m.promotion in PromotionChoices(IsWhite(piece));
      assert OwnNonKing(m.promotion, pos.whiteToMove) && OwnNonKing(piece, pos.whiteToMove);
    }
    forall q ensures PieceAt(a, q) == PieceAt(b, q) || (OwnNonKing(PieceAt(a, q), pos.whiteToMove) && OwnNonKing(PieceAt(b, q), pos.whiteToMove)) {
      AppliedBoardContents(pos, m, q);
      SimulatedContents(pos, m, q);
    }
  }

  /** A legal move that does not castle, promotion or not, never leaves the mover's own king in check. */
  lemma MoverNotInCheck(pos: Position, m: Move)
    requires IsLegal(pos, m) && CastleOf(PieceAt(pos.squares, m.from), m).None?
    ensures !InCheck(ApplyMove(pos, m).squares, pos.whiteToMove)
  {
    AppliedLooksSimulated(pos, m);
    InCheckFrame(AppliedBoard(pos, m), Simulated(pos, m), pos.whiteToMove);
  }

  /** No move the generator lists, castlings apart, leaves the mover's own king in check once it is made. */
  lemma GeneratedMoveSafe(pos: Position, m: Move)
    requires m in LegalMoves(pos) && CastleOf(PieceAt(pos.squares, m.from), m).None?
    ensures IsLegal(pos, m) && !InCheck(ApplyMove(pos, m).squares, pos.whiteToMove)
  {
    LegalMovesExact(pos, m);
    MoverNotInCheck(pos, m);
  }

  // ---- the draft's makeMove ----

  /**
   * The draft's makeMove (chessboard.go:529-569): it only decodes the token and
   * rejects an empty from-square. It reads the sixth character (line 545) and never
   * uses it, so the decoded move carries no promotion. The squares are read with the
   * corrected origins and a five-character token is too short, as in the package
   * version.
   */
  function ValidateToken(pos: Position, t: string): (r: Result<Move, MoveError>)
    ensures r.Ok? <==> |t| >= 6 && t[0] == '0' && PieceAt(pos.squares, TokenSquare(t[1], t[2])) != EMPTY
    ensures r.Ok? ==> r.value == Move(TokenSquare(t[1], t[2]), TokenSquare(t[3], t[4]), EMPTY)
    ensures r == Err(TooShort) <==> |t| < 5 || (|t| == 5 && t[0] == '0')
    ensures r == Err(BadVersion) <==> |t| >= 5 && t[0] != '0'
    ensures r == Err(NoPieceOnFromSquare) <==> |t| >= 6 && t[0] == '0' && PieceAt(pos.squares, TokenSquare(t[1], t[2])) == EMPTY
  {
    if |t| < 5 then Err(TooShort)
    else if t[0] != '0' then Err(BadVersion)
    else if |t| < 6 then Err(TooShort)
    else
      var m := Move(TokenSquare(t[1], t[2]), TokenSquare(t[3], t[4]), EMPTY);
      if PieceAt(pos.squares, m.from) == EMPTY then Err(NoPieceOnFromSquare) else Ok(m)
  }

  /** The draft ignores the sixth character: any other character there gives the same outcome. */
  lemma ValidateTokenIgnoresPromotion(pos: Position, t: string, c: char)
    requires |t| >= 6
    ensures ValidateToken(pos, t[..5] + [c] + t[6..]) == ValidateToken(pos, t)
  {
    var u := t[..5] + [c] + t[6..];
    assert |u| == |t| && u[0] == t[0] && u[1] == t[1] && u[2] == t[2] && u[3] == t[3] && u[4] == t[4];
  }

  /**
   * Against the package version: where both decode the token they agree on the two
   * squares, and the draft rejects a token exactly on a version or length error or
   * an empty from-square, whatever the promotion character.
   */
  lemma ValidateTokenAgainstParse(pos: Position, t: string)
    ensures ParseToken(t).Ok? ==> ValidateToken(pos, t).Ok? == (PieceAt(pos.squares, ParseToken(t).value.from) != EMPTY)
    ensures ParseToken(t).Ok? && ValidateToken(pos, t).Ok? ==>
      ValidateToken(pos, t).value == ParseToken(t).value.(promotion := EMPTY)
    ensures ParseToken(t) == Err(TooShort) <==> ValidateToken(pos, t) == Err(TooShort)
    ensures ParseToken(t) == Err(BadVersion) <==> ValidateToken(pos, t) == Err(BadVersion)
  {
  }

  /** The draft accepts the generator's letter 'Q' in place of a promotion digit, which the package version rejects. */
  lemma ValidateTokenAcceptsLetter(pos: Position)
    requires PieceAt(pos.squares, Pair(4, 1)) != EMPTY
    ensures ValidateToken(pos, "0e2e4Q") == Ok(Move(Pair(4, 1), Pair(4, 3), EMPTY))
    ensures ParseToken("0e2e4Q") == Err(BadPromotion)
  {
    assert TokenSquare('e', '2') == Pair(4, 1) && TokenSquare('e', '4') == Pair(4, 3);
  }
}
