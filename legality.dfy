/**
 * The legality checker CheckMoveLegality (pkg/chessboard/chessboard.go:404-515;
 * the draft at chessboard.go:200-309 has the same gates and castling cases) as a
 * predicate on positions. Corrections against the code as written, each at its line:
 *  - the bounds gate tests `from` twice (line 406); the model tests both squares;
 *  - the castling cases pass WHITE when black castles and BLACK when white castles
 *    to SquareIsThreatened, whose argument names the DEFENDING side (lines 441, 455,
 *    469, 482, against line 503); the model asks whether the opponent attacks;
 *  - the simulation mutates the live board and the restore lists stay empty
 *    (lines 429-431, 497-498, 506-512); the model evaluates a scratch copy;
 *  - the result is `threat`, true exactly when the king is attacked (line 514);
 *    the model accepts when the king is NOT attacked;
 *  - a non-castling king move leaves the switch without being simulated
 *    (lines 436-490), so the test looks at the king's old square; the model
 *    simulates every non-castling move.
 * Additions where the source holds placeholders (lines 491-493): an en-passant
 * capture also removes the passed pawn from the scratch board, and a pawn reaching
 * its last rank must name a queen, rook, bishop or knight of its colour.
 */
module Legality {
  import opened Wrappers
  import opened Coords
  import opened Pieces
  import opened Game
  import opened Attacks

  datatype Castle = WhiteKingSide | WhiteQueenSide | BlackKingSide | BlackQueenSide

  /** The castling a king move stands for: from the king's home square two files aside (lines 436-490). */
  function CastleOf(piece: Kind, m: Move): (r: Option<Castle>)
    ensures r.Some? ==> IsKing(piece) && m.from.row == m.to.row && Abs(m.to.col - m.from.col) == 2
  {
    if piece == BKING && m.from == E8 && m.to == C8 then Some(BlackQueenSide)
    else if piece == BKING && m.from == E8 && m.to == G8 then Some(BlackKingSide)
    else if piece == WKING && m.from == E1 && m.to == C1 then Some(WhiteQueenSide)
    else if piece == WKING && m.from == E1 && m.to == G1 then Some(WhiteKingSide)
    else None
  }

  /** The castling is white's. */
  predicate CastlingWhite(c: Castle) {
    c == WhiteKingSide || c == WhiteQueenSide
  }

  /** The right a castling needs. */
  predicate CastleRight(pos: Position, c: Castle) {
    match c
    case BlackQueenSide => pos.blackQueenCastle
    case BlackKingSide => pos.blackKingCastle
    case WhiteQueenSide => pos.whiteQueenCastle
    case WhiteKingSide => pos.whiteKingCastle
  }

  /** The king's square and the two squares it crosses, in the order the source tests them. */
  function KingPath(c: Castle): seq<Pair> {
    match c
    case BlackQueenSide => [E8, D8, C8]
    case BlackKingSide => [E8, F8, G8]
    case WhiteQueenSide => [E1, D1, C1]
    case WhiteKingSide => [E1, F1, G1]
  }

  /** The squares between king and rook. */
  function BetweenSquares(c: Castle): seq<Pair> {
    match c
    case BlackQueenSide => [D8, C8, B8]
    case BlackKingSide => [F8, G8]
    case WhiteQueenSide => [D1, C1, B1]
    case WhiteKingSide => [F1, G1]
  }

  /**
   * The castling conditions of lines 437-489, the four cases read off the tables
   * above: the right is still held, the king's square and the two squares towards
   * the rook are not attacked by the opponent, and the squares between king and
   * rook are empty.
   */
  predicate CastleAllowed(pos: Position, c: Castle) {
    CastleRight(pos, c)
    && (forall i :: 0 <= i < |KingPath(c)| ==> !Attacked(pos.squares, !CastlingWhite(c), KingPath(c)[i]))
    && (forall i :: 0 <= i < |BetweenSquares(c)| ==> PieceAt(pos.squares, BetweenSquares(c)[i]) == EMPTY)
  }

  lemma AllOfTwo(s: seq<Pair>, f: Pair -> bool)
    requires |s| == 2
    ensures (forall i :: 0 <= i < |s| ==> f(s[i])) <==> f(s[0]) && f(s[1])
  {
  }

  lemma AllOfThree(s: seq<Pair>, f: Pair -> bool)
    requires |s| == 3
    ensures (forall i :: 0 <= i < |s| ==> f(s[i])) <==> f(s[0]) && f(s[1]) && f(s[2])
  {
  }

  /** A pawn of this kind standing on `to` has reached its last rank. */
  predicate IsPromotionSquare(piece: Kind, to: Pair) {
    (piece == WPAWN && to.row == 7) || (piece == BPAWN && to.row == 0)
  }

  /** The four pieces a pawn of the given colour may become, in the generator's order Q, R, N, B. */
  function PromotionChoices(white: bool): (r: seq<Kind>)
    ensures |r| == 4 && forall i :: 0 <= i < 4 ==> r[i] != EMPTY && IsWhite(r[i]) == white && !IsKing(r[i]) && !IsPawn(r[i])
  {
    [OfColour(white, WQUEEN), OfColour(white, WROOK), OfColour(white, WKNIGHT), OfColour(white, WBISHOP)]
  }

  /** A promotion is named exactly when a pawn reaches its last rank, and then it is one of the four. */
  predicate PromotionOk(piece: Kind, to: Pair, promotion: Kind) {
    if IsPromotionSquare(piece, to) then promotion in PromotionChoices(IsWhite(piece)) else promotion == EMPTY
  }

  /** A pawn moving diagonally onto the en-passant target square. */
  predicate IsEnPassantCapture(pos: Position, m: Move) {
    IsPawn(PieceAt(pos.squares, m.from)) && pos.enPassant == Some(m.to) && m.from.col != m.to.col && m.from.row != m.to.row
  }

  /** The square of the pawn an en-passant capture removes: beside the capturing pawn, on the target's file. */
  function PassedPawnSquare(m: Move): Pair {
    Pair(m.to.col, m.from.row)
  }

  /** The scratch board after the move (lines 497-498): from erased, the moving piece put on `to`. */
  function Simulated(pos: Position, m: Move): Squares
    requires InBounds(m.from) && InBounds(m.to)
  {
    var b := pos.squares;
    var moved := Put(Erase(b, m.from), m.to, PieceAt(b, m.from));
    if IsEnPassantCapture(pos, m) && InBounds(PassedPawnSquare(m)) then Erase(moved, PassedPawnSquare(m))
    else moved
  }

  /** The gates of lines 405-424, with the corrected bounds test, and the promotion gate. */
  predicate Gates(pos: Position, m: Move) {
    var b := pos.squares;
    InBounds(m.from) && InBounds(m.to)
    && PieceAt(b, m.from) != EMPTY
    && !(PieceAt(b, m.to) != EMPTY && IsWhite(PieceAt(b, m.to)) == IsWhite(PieceAt(b, m.from)))
    && IsWhite(PieceAt(b, m.from)) == pos.whiteToMove
    && PromotionOk(PieceAt(b, m.from), m.to, m.promotion)
  }

  /** CheckMoveLegality: the gates, then the castling conditions or king safety on the scratch board. */
  predicate IsLegal(pos: Position, m: Move) {
    Gates(pos, m) &&
    match CastleOf(PieceAt(pos.squares, m.from), m)
    case Some(c) => CastleAllowed(pos, c)
    case None => !InCheck(Simulated(pos, m), pos.whiteToMove)
  }

  /**
   * The scratch board: `from` is empty, `to` holds the moving piece, the passed pawn
   * of an en-passant capture is gone, and every other square is as before.
   */
  lemma SimulatedContents(pos: Position, m: Move, p: Pair)
    requires InBounds(m.from) && InBounds(m.to) && m.from != m.to
    ensures PieceAt(Simulated(pos, m), p) ==
      (if p == m.to then PieceAt(pos.squares, m.from)
       else if p == m.from then EMPTY
       else if IsEnPassantCapture(pos, m) && p == PassedPawnSquare(m) then EMPTY
       else PieceAt(pos.squares, p))
  {
  }

  /**
   * White short castling, read off the board: the king on e1 with the move to g1 is
   * legal exactly when the right is held, f1 and g1 are empty and none of e1, f1,
   * g1 is attacked by black.
   */
  lemma WhiteKingSideCastling(pos: Position)
    requires pos.whiteToMove && PieceAt(pos.squares, E1) == WKING
    ensures IsLegal(pos, Move(E1, G1, EMPTY)) <==>
      pos.whiteKingCastle && PieceAt(pos.squares, F1) == EMPTY && PieceAt(pos.squares, G1) == EMPTY
      && !Attacked(pos.squares, false, E1) && !Attacked(pos.squares, false, F1) && !Attacked(pos.squares, false, G1)
  {
    var m := Move(E1, G1, EMPTY);
    assert CastleOf(WKING, m) == Some(WhiteKingSide);
    var b := pos.squares;
    AllOfThree(KingPath(WhiteKingSide), q => !Attacked(b, false, q));
    AllOfTwo(BetweenSquares(WhiteKingSide), q => PieceAt(b, q) == EMPTY);
    assert Gates(pos, m) <==> !(PieceAt(pos.squares, G1) != EMPTY && IsWhite(PieceAt(pos.squares, G1)));
  }

  /** Black long castling: the king on e8 to c8, with d8, c8, b8 empty and e8, d8, c8 not attacked by white. */
  lemma BlackQueenSideCastling(pos: Position)
    requires !pos.whiteToMove && PieceAt(pos.squares, E8) == BKING
    ensures IsLegal(pos, Move(E8, C8, EMPTY)) <==>
      pos.blackQueenCastle && PieceAt(pos.squares, D8) == EMPTY && PieceAt(pos.squares, C8) == EMPTY && PieceAt(pos.squares, B8) == EMPTY
      && !Attacked(pos.squares, true, E8) && !Attacked(pos.squares, true, D8) && !Attacked(pos.squares, true, C8)
  {
    var m := Move(E8, C8, EMPTY);
    assert CastleOf(BKING, m) == Some(BlackQueenSide);
    var b := pos.squares;
    AllOfThree(KingPath(BlackQueenSide), q => !Attacked(b, true, q));
    AllOfThree(BetweenSquares(BlackQueenSide), q => PieceAt(b, q) == EMPTY);
    assert Gates(pos, m) <==> !(PieceAt(pos.squares, C8) != EMPTY && !IsWhite(PieceAt(pos.squares, C8)));
  }

  /** White long castling: the king on e1 to c1, with d1, c1, b1 empty and e1, d1, c1 not attacked by black. */
  lemma WhiteQueenSideCastling(pos: Position)
    requires pos.whiteToMove && PieceAt(pos.squares, E1) == WKING
    ensures IsLegal(pos, Move(E1, C1, EMPTY)) <==>
      pos.whiteQueenCastle && PieceAt(pos.squares, D1) == EMPTY && PieceAt(pos.squares, C1) == EMPTY && PieceAt(pos.squares, B1) == EMPTY
      && !Attacked(pos.squares, false, E1) && !Attacked(pos.squares, false, D1) && !Attacked(pos.squares, false, C1)
  {
    var m := Move(E1, C1, EMPTY);
    assert CastleOf(WKING, m) == Some(WhiteQueenSide);
    var b := pos.squares;
    AllOfThree(KingPath(WhiteQueenSide), q => !Attacked(b, false, q));
    AllOfThree(BetweenSquares(WhiteQueenSide), q => PieceAt(b, q) == EMPTY);
    assert Gates(pos, m) <==> !(PieceAt(pos.squares, C1) != EMPTY && IsWhite(PieceAt(pos.squares, C1)));
  }

  /** Black short castling: the king on e8 to g8, with f8 and g8 empty and e8, f8, g8 not attacked by white. */
  lemma BlackKingSideCastling(pos: Position)
    requires !pos.whiteToMove && PieceAt(pos.squares, E8) == BKING
    ensures IsLegal(pos, Move(E8, G8, EMPTY)) <==>
      pos.blackKingCastle && PieceAt(pos.squares, F8) == EMPTY && PieceAt(pos.squares, G8) == EMPTY
      && !Attacked(pos.squares, true, E8) && !Attacked(pos.squares, true, F8) && !Attacked(pos.squares, true, G8)
  {
    var m := Move(E8, G8, EMPTY);
    assert CastleOf(BKING, m) == Some(BlackKingSide);
    var b := pos.squares;
    AllOfThree(KingPath(BlackKingSide), q => !Attacked(b, true, q));
    AllOfTwo(BetweenSquares(BlackKingSide), q => PieceAt(b, q) == EMPTY);
    assert Gates(pos, m) <==> !(PieceAt(pos.squares, G8) != EMPTY && !IsWhite(PieceAt(pos.squares, G8)));
  }

  /**
   * A legal move that is not a castling leaves the mover's king, if the mover has
   * one, on a square the opponent does not attack.
   */
  lemma LegalMoveSafety(pos: Position, m: Move, k: Pair)
    requires IsLegal(pos, m) && CastleOf(PieceAt(pos.squares, m.from), m).None?
    requires PieceAt(Simulated(pos, m), k) == OfColour(pos.whiteToMove, WKING)
    requires forall q :: q != k ==> PieceAt(Simulated(pos, m), q) != OfColour(pos.whiteToMove, WKING)
    ensures !Attacked(Simulated(pos, m), !pos.whiteToMove, k)
  {
  }

  /** The promotion piece does not affect legality beyond the promotion gate. */
  lemma PromotionChoiceIrrelevant(pos: Position, from: Pair, to: Pair, p1: Kind, p2: Kind)
    requires PromotionOk(PieceAt(pos.squares, from), to, p1) && PromotionOk(PieceAt(pos.squares, from), to, p2)
    ensures IsLegal(pos, Move(from, to, p1)) <==> IsLegal(pos, Move(from, to, p2))
  {
    if InBounds(from) && InBounds(to) {
      assert Simulated(pos, Move(from, to, p1)) == Simulated(pos, Move(from, to, p2));
    }
  }
}
