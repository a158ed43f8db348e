/**
 * Piece kinds as the small integers the engine uses to index its bitboards
 * (pkg/chessboard/chessboard.go:10-38, 76-94, 529-531; chessboard.go:9-57, 320-322).
 * 0 stands for "no piece"; 1..6 are White's king..pawn and 7..12 Black's.
 */
module Pieces {
  import opened Wrappers

  type Kind = k: int | 0 <= k <= 12

  const EMPTY: Kind := 0
  const WKING: Kind := 1
  const WQUEEN: Kind := 2
  const WROOK: Kind := 3
  const WBISHOP: Kind := 4
  const WKNIGHT: Kind := 5
  const WPAWN: Kind := 6
  const BKING: Kind := 7
  const BQUEEN: Kind := 8
  const BROOK: Kind := 9
  const BBISHOP: Kind := 10
  const BKNIGHT: Kind := 11
  const BPAWN: Kind := 12

  /** isWhite: a white piece; the empty square counts as not white. */
  predicate IsWhite(k: Kind) {
    0 < k < BKING
  }

  predicate IsBlack(k: Kind) {
    BKING <= k
  }

  /** The piece of the given colour whose white counterpart is `whiteKind`. */
  function OfColour(white: bool, whiteKind: Kind): (k: Kind)
    requires WKING <= whiteKind <= WPAWN
    ensures k != EMPTY && IsWhite(k) == white
    ensures k == whiteKind || k == whiteKind + 6
  {
    if white then whiteKind else whiteKind + 6
  }

  predicate IsPawn(k: Kind) { k == WPAWN || k == BPAWN }

  predicate IsKing(k: Kind) { k == WKING || k == BKING }

  /** charToPiece. A letter outside "KQRBNPkqrbnp" has no piece (the Go map yields 0 for it). */
  function CharToPiece(c: char): Option<Kind> {
    match c
    case 'K' => Some(WKING)
    case 'Q' => Some(WQUEEN)
    case 'R' => Some(WROOK)
    case 'B' => Some(WBISHOP)
    case 'N' => Some(WKNIGHT)
    case 'P' => Some(WPAWN)
    case 'k' => Some(BKING)
    case 'q' => Some(BQUEEN)
    case 'r' => Some(BROOK)
    case 'b' => Some(BBISHOP)
    case 'n' => Some(BKNIGHT)
    case 'p' => Some(BPAWN)
    case _ => None
  }

  /**
   * pieceToChar with knights as 'N'/'n'. The source maps both knights to
   * 'K'/'k' (pkg/chessboard/chessboard.go:81, 87; chessboard.go:44, 50).
   */
  function PieceToChar(k: Kind): char
    requires k != EMPTY
  {
    "?KQRBNPkqrbnp"[k]
  }

  /** pieceToChar as written: knights print as kings. */
  function PieceToCharAsWritten(k: Kind): char
    requires k != EMPTY
  {
    "?KQRBKPkqrbkp"[k]
  }

  lemma PieceToCharAsWrittenCollides()
    ensures PieceToCharAsWritten(WKNIGHT) == PieceToCharAsWritten(WKING)
    ensures PieceToCharAsWritten(BKNIGHT) == PieceToCharAsWritten(BKING)
  {
  }

  /** charToPiece and the corrected pieceToChar are inverse bijections. */
  lemma PieceCharRoundTrip(k: Kind, c: char)
    ensures k != EMPTY ==> CharToPiece(PieceToChar(k)) == Some(k)
    ensures CharToPiece(c).Some? ==> CharToPiece(c).value != EMPTY && PieceToChar(CharToPiece(c).value) == c
  {
  }
}
