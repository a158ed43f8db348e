/**
 * Squares and offsets: the `pair` type of the engine, its arithmetic, and the
 * direction tables (pkg/chessboard/chessboard.go:40-74, 98-101, 168-185, 257-259;
 * chessboard.go:61-64, 90-103, 175-177).
 *
 * A square is a (col, row) pair; col 0..7 is the file a..h and row 0..7 the
 * rank 1..8. The linear index used for bitboards is 8 * row + col.
 * The source stores col and row as int8; the model uses unbounded integers.
 * They agree on every square of the board and on the offsets the engine adds,
 * but not everywhere: the placement reader's column wraps modulo 256 (line 196),
 * and a token square is the int8 of a byte difference, anywhere from -128 to 127
 * (lines 750-755). The Fen and Execution modules say how the model treats those
 * inputs.
 */
module Coords {

  datatype Pair = Pair(col: int, row: int)

  /** Component-wise sum (addPair). */
  function AddPair(a: Pair, b: Pair): Pair {
    Pair(a.col + b.col, a.row + b.row)
  }

  /** The pair names one of the 64 squares (inBounds). */
  predicate InBounds(p: Pair) {
    0 <= p.col < 8 && 0 <= p.row < 8
  }

  /** Linear bitboard index of a square (pairToInt); decoding it gives back the row and column. */
  function PairToInt(p: Pair): (n: nat)
    requires InBounds(p)
    ensures n < 64
    ensures n / 8 == p.row && n % 8 == p.col
  {
    8 * p.row + p.col
  }

  /**
   * Square of a linear index. The source's intToPair (pkg/chessboard/chessboard.go:179-181)
   * puts n / 8 in the column and n % 8 in the row, the transpose of pairToInt;
   * this is the inverse that pairToInt calls for.
   */
  function IntToPair(n: nat): (p: Pair)
    requires n < 64
    ensures InBounds(p) && PairToInt(p) == n
  {
    Pair(n % 8, n / 8)
  }

  /** intToPair as written: column and row swapped. */
  function IntToPairAsWritten(n: nat): Pair {
    Pair(n / 8, n % 8)
  }

  /** As written, intToPair(1) is the square of index 8, not 1. */
  lemma IntToPairAsWrittenMisses()
    ensures InBounds(IntToPairAsWritten(1)) && PairToInt(IntToPairAsWritten(1)) == 8
  {
  }

  /** pairToInt is injective on the board. */
  lemma PairToIntInjective(a: Pair, b: Pair)
    requires InBounds(a) && InBounds(b) && PairToInt(a) == PairToInt(b)
    ensures a == b
  {
  }

  /** intToPair (corrected) undoes pairToInt. */
  lemma IntToPairRoundTrip(p: Pair)
    requires InBounds(p)
    ensures IntToPair(PairToInt(p)) == p
  {
  }

  /** The test of addPair in chessboard_test.go:9-16. */
  lemma AddPairExample()
    ensures AddPair(Pair(1, 2), Pair(2, 1)) == Pair(3, 3)
  {
  }

  /**
   * Square of a two-letter algebraic name (sq), file 'a' -> 0 and rank '1' -> 0.
   * The source maps rank '0' to row 0, so "e1" becomes row 1 and "e8" row 8
   * (pkg/chessboard/chessboard.go:169); the castling code needs rank '1' -> row 0.
   */
  function Sq(name: string): Pair
    requires |name| == 2
  {
    Pair(name[0] as int - 'a' as int, name[1] as int - '1' as int)
  }

  /** sq as written (rank origin '0'). */
  function SqAsWritten(name: string): Pair
    requires |name| == 2
  {
    Pair(name[0] as int - 'a' as int, name[1] as int - '0' as int)
  }

  /** As written, sq("e1") is e2 and sq("e8") is off the board. */
  lemma SqAsWrittenMisses()
    ensures SqAsWritten("e1") == Pair(4, 1) && Sq("e1") == Pair(4, 0)
    ensures !InBounds(SqAsWritten("e8")) && InBounds(Sq("e8"))
  {
  }

  /** Algebraic name of a square. */
  function SquareName(p: Pair): (name: string)
    requires InBounds(p)
    ensures |name| == 2
  {
    [(p.col + 'a' as int) as char, (p.row + '1' as int) as char]
  }

  /** A two-letter name lies on the board exactly when it is a file letter and a rank digit. */
  predicate IsSquareName(name: string) {
    |name| == 2 && 'a' <= name[0] <= 'h' && '1' <= name[1] <= '8'
  }

  /** Sq and SquareName are mutually inverse. */
  lemma SqRoundTrip(p: Pair, name: string)
    ensures InBounds(p) ==> IsSquareName(SquareName(p)) && Sq(SquareName(p)) == p
    ensures IsSquareName(name) ==> InBounds(Sq(name)) && SquareName(Sq(name)) == name
  {
  }

  /** The square k steps from p along d. */
  function Step(p: Pair, d: Pair, k: int): Pair {
    Pair(p.col + k * d.col, p.row + k * d.row)
  }

  lemma StepNext(p: Pair, d: Pair, k: int)
    ensures Step(AddPair(p, d), d, k) == Step(p, d, k + 1)
    ensures Step(p, d, 0) == p && Step(p, d, 1) == AddPair(p, d)
  {
    assert (k + 1) * d.col == k * d.col + d.col;
    assert (k + 1) * d.row == k * d.row + d.row;
  }

  /** One of the eight unit directions a queen may slide in. */
  predicate IsDirection(d: Pair) {
    -1 <= d.col <= 1 && -1 <= d.row <= 1 && d != Pair(0, 0)
  }

  /** A bound on the number of steps along d before leaving the board; 0 off the board. */
  function RayMeasure(p: Pair, d: Pair): nat {
    if !InBounds(p) then 0
    else 1 + (if d.col > 0 then 7 - p.col else if d.col < 0 then p.col else 7)
           + (if d.row > 0 then 7 - p.row else if d.row < 0 then p.row else 7)
  }

  lemma RayMeasureDecreases(p: Pair, d: Pair)
    requires IsDirection(d) && InBounds(p)
    ensures RayMeasure(AddPair(p, d), d) < RayMeasure(p, d)
  {
  }

  /** Diagonal slides (bishopSlides), also used for the bishop and queen move lists. */
  const BishopSlides: seq<Pair> := [Pair(1, 1), Pair(-1, 1), Pair(-1, -1), Pair(1, -1)]

  /** Orthogonal slides (rookSlides). */
  const RookSlides: seq<Pair> := [Pair(1, 0), Pair(-1, 0), Pair(0, 1), Pair(0, -1)]

  /** The king's eight steps (kingMoves). */
  const KingMoves: seq<Pair> :=
    [Pair(1, 1), Pair(1, 0), Pair(1, -1), Pair(-1, 0), Pair(-1, 1), Pair(-1, -1), Pair(0, 1), Pair(0, -1)]

  /** The knight's eight jumps (knightMoves). */
  const KnightMoves: seq<Pair> :=
    [Pair(2, 1), Pair(2, -1), Pair(-2, 1), Pair(-2, -1), Pair(1, 2), Pair(1, -2), Pair(-1, 2), Pair(-1, -2)]

  function Abs(x: int): nat { if x < 0 then -x else x }

  predicate IsKnightOffset(d: Pair) {
    (Abs(d.col) == 2 && Abs(d.row) == 1) || (Abs(d.col) == 1 && Abs(d.row) == 2)
  }

  predicate IsKingOffset(d: Pair) {
    Abs(d.col) <= 1 && Abs(d.row) <= 1 && d != Pair(0, 0)
  }

  predicate IsDiagonal(d: Pair) {
    Abs(d.col) == 1 && Abs(d.row) == 1
  }

  predicate IsOrthogonal(d: Pair) {
    Abs(d.col) + Abs(d.row) == 1
  }

  /** The tables are exactly the chess geometry: each lists every offset of its kind once. */
  lemma TablesExact(d: Pair)
    ensures d in KnightMoves <==> IsKnightOffset(d)
    ensures d in KingMoves <==> IsKingOffset(d)
    ensures d in BishopSlides <==> IsDiagonal(d)
    ensures d in RookSlides <==> IsOrthogonal(d)
    ensures |KnightMoves| == |KingMoves| == 8 && |BishopSlides| == |RookSlides| == 4
    ensures forall i, j :: 0 <= i < j < 8 ==> KnightMoves[i] != KnightMoves[j] && KingMoves[i] != KingMoves[j]
    ensures forall i, j :: 0 <= i < j < 4 ==> BishopSlides[i] != BishopSlides[j] && RookSlides[i] != RookSlides[j]
  {
  }
}
