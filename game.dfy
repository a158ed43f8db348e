/**
 * The position value and the move value (pkg/chessboard/chessboard.go:96-107, 136-149;
 * chessboard.go:59-87). The Engine module's Chessboard class holds the same
 * state in mutable fields, the board as thirteen bitboards; its Snapshot() is a
 * Position whose board is the bitboards read square by square (Bitboards.View).
 */
module Game {
  import opened Wrappers
  import opened Coords
  import opened Pieces
  import opened Bitboards

  /**
   * The fields of the Chessboard struct. The source keeps the en-passant
   * square as a pair whose zero value {0,0} doubles as "none"; the model uses
   * an Option. The Moves history field is never read or written and is left out.
   */
  datatype Position = Position(
    squares: Squares,
    whiteToMove: bool,
    enPassant: Option<Pair>,
    blackKingCastle: bool,
    blackQueenCastle: bool,
    whiteKingCastle: bool,
    whiteQueenCastle: bool,
    halfmoveClock: int,
    fullmoveCounter: int)

  /** A candidate move; `promotion` is the piece kind a pawn becomes, EMPTY for none. */
  datatype Move = Move(from: Pair, to: Pair, promotion: Kind)

  const A1 := Pair(0, 0)
  const B1 := Pair(1, 0)
  const C1 := Pair(2, 0)
  const D1 := Pair(3, 0)
  const E1 := Pair(4, 0)
  const F1 := Pair(5, 0)
  const G1 := Pair(6, 0)
  const H1 := Pair(7, 0)
  const A8 := Pair(0, 7)
  const B8 := Pair(1, 7)
  const C8 := Pair(2, 7)
  const D8 := Pair(3, 7)
  const E8 := Pair(4, 7)
  const F8 := Pair(5, 7)
  const G8 := Pair(6, 7)
  const H8 := Pair(7, 7)

  /** The named castling squares are the squares the corrected sq gives for their names. */
  lemma NamedSquares()
    ensures Sq("e1") == E1 && Sq("f1") == F1 && Sq("g1") == G1 && Sq("d1") == D1 && Sq("c1") == C1 && Sq("b1") == B1
    ensures Sq("e8") == E8 && Sq("f8") == F8 && Sq("g8") == G8 && Sq("d8") == D8 && Sq("c8") == C8 && Sq("b8") == B8
  {
  }

  /** The board read square by square: entry 8*row+col is the kind on that square, EMPTY for none. */
  type Squares = s: seq<Kind> | |s| == 64 witness seq(64, n => EMPTY)

  /** The board with no piece on it. */
  function EmptySquares(): (r: Squares)
    ensures forall q :: PieceAt(r, q) == EMPTY
  {
    seq(64, n => EMPTY)
  }

  /** getPiece: the kind on a square, EMPTY for an empty or off-board square. */
  function PieceAt(s: Squares, p: Pair): Kind {
    if InBounds(p) then s[PairToInt(p)] else EMPTY
  }

  /** erasePiece on the view. */
  function Erase(s: Squares, p: Pair): (r: Squares)
    requires InBounds(p)
    ensures forall q :: PieceAt(r, q) == if q == p then EMPTY else PieceAt(s, q)
  {
    var r := s[PairToInt(p) := EMPTY];
    assert forall q :: InBounds(q) && PairToInt(q) == PairToInt(p) ==> q == p by {
      forall q | InBounds(q) && PairToInt(q) == PairToInt(p) ensures q == p { PairToIntInjective(q, p); }
    }
    r
  }

  /** putPiece on the view. */
  function Put(s: Squares, p: Pair, k: Kind): (r: Squares)
    requires InBounds(p)
    ensures forall q :: PieceAt(r, q) == if q == p then k else PieceAt(s, q)
  {
    var r := s[PairToInt(p) := k];
    assert forall q :: InBounds(q) && PairToInt(q) == PairToInt(p) ==> q == p by {
      forall q | InBounds(q) && PairToInt(q) == PairToInt(p) ensures q == p { PairToIntInjective(q, p); }
    }
    r
  }

  /** Erasing a square is putting EMPTY there. */
  lemma EraseIsPutEmpty(s: Squares, p: Pair)
    requires InBounds(p)
    ensures Erase(s, p) == Put(s, p, EMPTY)
  {
  }

  /** The first index at or after i holding kind k. */
  function FirstIndexOf(s: Squares, k: Kind, i: nat): (r: Option<nat>)
    requires i <= 64
    decreases 64 - i
    ensures r.Some? ==> i <= r.value < 64 && s[r.value] == k && forall j :: i <= j < r.value ==> s[j] != k
    ensures r.None? ==> forall j :: i <= j < 64 ==> s[j] != k
  {
    if i == 64 then None
    else if s[i] == k then Some(i)
    else FirstIndexOf(s, k, i + 1)
  }

  /**
   * GetKingPosition: the square of the lowest index holding the given side's
   * king; None when that side has no king (the source then returns the
   * off-board pair intToPair(64)).
   */
  function KingSquare(s: Squares, white: bool): (r: Option<Pair>)
    ensures r.Some? ==> (InBounds(r.value) && PieceAt(s, r.value) == OfColour(white, WKING)
      && forall q :: InBounds(q) && PairToInt(q) < PairToInt(r.value) ==> PieceAt(s, q) != OfColour(white, WKING))
    ensures r.None? <==> forall q :: PieceAt(s, q) != OfColour(white, WKING)
  {
    assert KingSquareAt(s, white, 2) == KingSquareAt(s, white, 1) == KingSquareAt(s, white, 0);
    KingSquareAt(s, white, 2)
  }

  /**
   * The king search behind two levels of recursion on `depth`, so that a proof
   * using KingSquare sees its contract and not the index arithmetic of
   * intToPair; KingSquareOpen states the search itself.
   */
  function KingSquareAt(s: Squares, white: bool, depth: nat): Option<Pair>
  {
    if depth > 0 then KingSquareAt(s, white, depth - 1)
    else
      match FirstIndexOf(s, OfColour(white, WKING), 0)
      case None => None
      case Some(n) => Some(IntToPair(n))
  }

  lemma KingSquareOpen(s: Squares, white: bool)
    ensures KingSquareAt(s, white, 2) ==
      match FirstIndexOf(s, OfColour(white, WKING), 0)
      case None => None
      case Some(n) => Some(IntToPair(n))
  {
    assert KingSquareAt(s, white, 2) == KingSquareAt(s, white, 1) == KingSquareAt(s, white, 0);
  }
}
