/**
 * The move generator getMoveList (pkg/chessboard/chessboard.go:533-736; the draft
 * chessboard.go:324-527 is the same code) as functions on positions. Each function
 * follows one loop of the source, and the Engine module's methods run those loops.
 * Corrections against the code as written:
 *  - the scan runs col and row from 0 to 8 inclusive (lines 538-539); the model
 *    scans the 64 squares;
 *  - the white pawn's diagonal accepts any non-white square, including empty ones
 *    (lines 572, 576); the model asks for a black piece or the en-passant target;
 *  - the none-value of the en-passant square is the pair {0,0}, the a1 square, which
 *    a black pawn on b2 would otherwise match; the model keeps an Option;
 *  - the bishop and queen direction lists repeat (-1,1) and miss (1,-1) (lines 629-636,
 *    688-695); the model keeps their order and puts (1,-1) in place of the repeat;
 *  - the ray loop reads the colour of the first square only and stops there
 *    (lines 698-715); the model walks the ray, adding empty squares, the first
 *    opposing piece, and stopping at its own piece or the edge;
 *  - every move is built with promotion 'Q' (line 720) and, from the seventh rank,
 *    also 'R', 'N' and 'B' (lines 727-729); the model names the piece of the mover's
 *    colour and leaves other moves without promotion.
 */
module MoveGen {
  import opened Wrappers
  import opened Coords
  import opened Pieces
  import opened Game
  import opened Attacks
  import opened Legality

  /** The rook list of the generator (lines 642-659), in its order. */
  const RookDirections: seq<Pair> := [Pair(1, 0), Pair(0, 1), Pair(-1, 0), Pair(0, -1)]

  /** The bishop list of the generator (lines 620-637), in its order, its repeated (-1,1) replaced by (1,-1). */
  const BishopDirections: seq<Pair> := [Pair(-1, -1), Pair(1, 1), Pair(-1, 1), Pair(1, -1)]

  /** The queen list (lines 663-696): the rook list, then the bishop list. */
  const QueenDirections: seq<Pair> := RookDirections + BishopDirections

  /** A piece there belongs to the side opposing `white`. */
  predicate IsOpponent(k: Kind, white: bool) {
    k != EMPTY && IsWhite(k) != white
  }

  /** A pawn may move diagonally onto t: an opposing piece stands there or it is the en-passant target. */
  predicate PawnCapturable(pos: Position, t: Pair, white: bool) {
    IsOpponent(PieceAt(pos.squares, t), white) || pos.enPassant == Some(t)
  }

  /**
   * The pawn's destinations, in the source's order (lines 547-581): the double
   * push from the home rank over two empty squares, the two diagonals, the single
   * push onto an empty square.
   */
  function PawnTargets(pos: Position, from: Pair, white: bool): seq<Pair> {
    var b := pos.squares;
    var dir := if white then 1 else -1;
    var one := Pair(from.col, from.row + dir);
    var two := Pair(from.col, from.row + 2 * dir);
    var left := Pair(from.col - 1, from.row + dir);
    var right := Pair(from.col + 1, from.row + dir);
    (if from.row == (if white then 1 else 6) && PieceAt(b, one) == EMPTY && PieceAt(b, two) == EMPTY then [two] else [])
    + (if PawnCapturable(pos, left, white) then [left] else [])
    + (if PawnCapturable(pos, right, white) then [right] else [])
    + (if PieceAt(b, one) == EMPTY then [one] else [])
  }

  /** The inner loop of the king's neighbours (lines 598-606): row offsets j..1 for column offset i, skipping (0,0). */
  function KingRow(from: Pair, i: int, j: int): seq<Pair>
    requires j <= 2
    decreases 2 - j
  {
    if j == 2 then []
    else (if i == j && i == 0 then [] else [Pair(from.col + i, from.row + j)]) + KingRow(from, i, j + 1)
  }

  /** The outer loop of the king's neighbours: column offsets i..1. */
  function KingGrid(from: Pair, i: int): seq<Pair>
    requires i <= 2
    decreases 2 - i
  {
    if i == 2 then [] else KingRow(from, i, -1) + KingGrid(from, i + 1)
  }

  /**
   * The king's destinations (lines 582-606): two files aside for each castling
   * right of its colour (the castling gates decide the rest), then its eight
   * neighbours.
   */
  function KingTargets(pos: Position, from: Pair, white: bool): seq<Pair> {
    var kingSide := if white then pos.whiteKingCastle else pos.blackKingCastle;
    var queenSide := if white then pos.whiteQueenCastle else pos.blackQueenCastle;
    (if kingSide then [Pair(from.col + 2, from.row)] else [])
    + (if queenSide then [Pair(from.col - 2, from.row)] else [])
    + KingGrid(from, -1)
  }

  /** The inner loop of the knight (lines 611-614): j = -1, 1, each giving (i, j) and (j, i). */
  function KnightRow(from: Pair, i: int, j: int): seq<Pair>
    requires j <= 3
    decreases 3 - j
  {
    if j >= 2 then []
    else [Pair(from.col + i, from.row + j), Pair(from.col + j, from.row + i)] + KnightRow(from, i, j + 2)
  }

  /** The outer loop of the knight: i = -2, 2. */
  function KnightGrid(from: Pair, i: int): seq<Pair>
    decreases if i >= 5 then 0 else 5 - i
  {
    if i >= 5 then [] else KnightRow(from, i, -1) + KnightGrid(from, i + 4)
  }

  /** One ray of a sliding piece: empty squares are added and passed, the first opposing piece is added, its own piece or the edge ends it. */
  function RayTargets(b: Squares, s: Pair, d: Pair, white: bool): seq<Pair>
    requires IsDirection(d)
    decreases RayMeasure(s, d)
  {
    if !InBounds(s) then []
    else if PieceAt(b, s) == EMPTY then [s] + RayTargets(b, AddPair(s, d), d, white)
    else if IsWhite(PieceAt(b, s)) != white then [s]
    else []
  }

  predicate AllDirections(dirs: seq<Pair>) {
    forall i :: 0 <= i < |dirs| ==> IsDirection(dirs[i])
  }

  /** The rays of all directions of a list, in the list's order. */
  function SlideTargets(b: Squares, from: Pair, dirs: seq<Pair>, white: bool): seq<Pair>
    requires AllDirections(dirs)
    decreases |dirs|
  {
    if |dirs| == 0 then []
    else
      var d := dirs[|dirs| - 1];
      SlideTargets(b, from, dirs[..|dirs| - 1], white) + RayTargets(b, AddPair(from, d), d, white)
  }

  /** The direction list of a sliding piece, empty for the others. */
  function DirectionsOf(piece: Kind): (r: seq<Pair>)
    ensures AllDirections(r)
  {
    if piece == WBISHOP || piece == BBISHOP then BishopDirections
    else if piece == WROOK || piece == BROOK then RookDirections
    else if piece == WQUEEN || piece == BQUEEN then QueenDirections
    else []
  }

  /** The bishop list holds each diagonal once, the rook list each rank and file direction once, the queen list both. */
  lemma DirectionListsExact(d: Pair)
    ensures d in BishopDirections <==> IsDiagonal(d)
    ensures d in RookDirections <==> IsOrthogonal(d)
    ensures d in QueenDirections <==> IsDiagonal(d) || IsOrthogonal(d)
    ensures forall i, j :: 0 <= i < j < |QueenDirections| ==> QueenDirections[i] != QueenDirections[j]
  {
  }

  /** The destinations the generator tries for the piece on `from` (toSquares, lines 540-715). */
  function PseudoTargets(pos: Position, from: Pair): seq<Pair> {
    var piece := PieceAt(pos.squares, from);
    var white := IsWhite(piece);
    if IsPawn(piece) then PawnTargets(pos, from, white)
    else if IsKing(piece) then KingTargets(pos, from, white)
    else if piece == WKNIGHT || piece == BKNIGHT then KnightGrid(from, -2)
    else SlideTargets(pos.squares, from, DirectionsOf(piece), white)
  }

  /** A pawn on its seventh rank: its moves are emitted once per promotion piece (lines 725-730). */
  predicate PromotesFrom(piece: Kind, from: Pair) {
    (piece == WPAWN && from.row == 6) || (piece == BPAWN && from.row == 1)
  }

  /** The moves one destination contributes (lines 716-731): none if illegal, four for a promotion, else one. */
  function Expand(pos: Position, from: Pair, to: Pair): seq<Move> {
    ExpandAt(pos, from, to, 2)
  }

  /** Expand behind two levels of recursion on `depth`, for the same reason as MovesFromAt; ExpandOpen states what it is. */
  function ExpandAt(pos: Position, from: Pair, to: Pair, depth: nat): seq<Move> {
    if depth > 0 then ExpandAt(pos, from, to, depth - 1) else
    var piece := PieceAt(pos.squares, from);
    if PromotesFrom(piece, from) then
      var choices := PromotionChoices(IsWhite(piece));
      if IsLegal(pos, Move(from, to, choices[0])) then
        [Move(from, to, choices[0]), Move(from, to, choices[1]), Move(from, to, choices[2]), Move(from, to, choices[3])]
      else []
    else if IsLegal(pos, Move(from, to, EMPTY)) then [Move(from, to, EMPTY)]
    else []
  }

  lemma ExpandOpen(pos: Position, from: Pair, to: Pair)
    ensures Expand(pos, from, to) == ExpandAt(pos, from, to, 0)
  {
    assert ExpandAt(pos, from, to, 2) == ExpandAt(pos, from, to, 1) == ExpandAt(pos, from, to, 0);
  }

  /** The moves a list of destinations contributes, in order. */
  function ExpandAll(pos: Position, from: Pair, ts: seq<Pair>): seq<Move>
    decreases |ts|
  {
    if |ts| == 0 then [] else ExpandAll(pos, from, ts[..|ts| - 1]) + Expand(pos, from, ts[|ts| - 1])
  }

  /** The legal moves of the piece on `from`. */
  function MovesFrom(pos: Position, from: Pair): seq<Move> {
    MovesFromAt(pos, from, 2)
  }

  /**
   * MovesFrom behind two levels of recursion on `depth`, so that a proof about the
   * scan over all squares does not unfold every rule of the generator and the
   * legality checker; MovesFromOpen states what it is.
   */
  function MovesFromAt(pos: Position, from: Pair, depth: nat): seq<Move> {
    if depth > 0 then MovesFromAt(pos, from, depth - 1) else ExpandAll(pos, from, PseudoTargets(pos, from))
  }

  lemma MovesFromOpen(pos: Position, from: Pair)
    ensures MovesFrom(pos, from) == ExpandAll(pos, from, PseudoTargets(pos, from))
  {
    assert MovesFromAt(pos, from, 2) == MovesFromAt(pos, from, 1) == MovesFromAt(pos, from, 0);
  }

  /** The n-th square of the scan: the column is the outer loop, the row the inner one (lines 538-539). */
  function ScanSquare(n: nat): (p: Pair)
    requires n < 64
    ensures InBounds(p)
  {
    Pair(n / 8, n % 8)
  }

  /** The moves of the first n squares of the scan. */
  function MovesBefore(pos: Position, n: nat): seq<Move>
    requires n <= 64
  {
    if n == 0 then [] else MovesBefore(pos, n - 1) + MovesFrom(pos, ScanSquare(n - 1))
  }

  /** getMoveList. */
  function LegalMoves(pos: Position): seq<Move> {
    MovesBefore(pos, 64)
  }

  // ---- properties ----

  lemma StepLeaves(s: Pair, d: Pair, k: int)
    requires IsDirection(d) && k != 0
    ensures Step(s, d, k) != s
  {
    if d.col != 0 {
      assert k * d.col != 0;
    } else {
      assert k * d.row != 0;
    }
  }

  /**
   * The k-th square of a ray is a destination exactly when the squares before it
   * are on the board and empty, and it is on the board and empty or holds an
   * opposing piece.
   */
  lemma {:induction false} RayTargetsExact(b: Squares, s: Pair, d: Pair, white: bool, k: nat)
    requires IsDirection(d)
    ensures Step(s, d, k) in RayTargets(b, s, d, white) <==>
      EmptyBefore(b, s, d, k) && InBounds(Step(s, d, k))
      && (PieceAt(b, Step(s, d, k)) == EMPTY || IsWhite(PieceAt(b, Step(s, d, k))) != white)
    decreases k
  {
    StepNext(s, d, 0);
    if k > 0 {
      StepLeaves(s, d, k);
      StepNext(s, d, k - 1);
      if InBounds(s) && PieceAt(b, s) == EMPTY {
        RayTargetsExact(b, AddPair(s, d), d, white, k - 1);
        EmptyBeforeShift(b, s, d, k - 1);
      }
    }
  }

  /** The destinations of a ray are the consecutive squares s, s+d, s+2d, ... */
  lemma {:induction false} RayTargetsOnRay(b: Squares, s: Pair, d: Pair, white: bool)
    requires IsDirection(d)
    ensures var r := RayTargets(b, s, d, white);
      forall i :: 0 <= i < |r| ==> r[i] == Step(s, d, i)
    decreases RayMeasure(s, d)
  {
    var r := RayTargets(b, s, d, white);
    StepNext(s, d, 0);
    if InBounds(s) && PieceAt(b, s) == EMPTY {
      var s' := AddPair(s, d);
      RayTargetsOnRay(b, s', d, white);
      forall i | 0 <= i < |r| ensures r[i] == Step(s, d, i) {
        if i > 0 { StepNext(s, d, i - 1); }
      }
    }
  }

  /** The knight's inner loop unrolled. */
  lemma KnightRowList(from: Pair, i: int)
    ensures KnightRow(from, i, -1) == [Pair(from.col + i, from.row - 1), Pair(from.col - 1, from.row + i),
                                       Pair(from.col + i, from.row + 1), Pair(from.col + 1, from.row + i)]
  {
    assert KnightRow(from, i, 1) == [Pair(from.col + i, from.row + 1), Pair(from.col + 1, from.row + i)] + KnightRow(from, i, 3);
  }

  /** The knight's outer loop unrolled. */
  lemma KnightGridRows(from: Pair)
    ensures KnightGrid(from, -2) == KnightRow(from, -2, -1) + KnightRow(from, 2, -1)
  {
    var g6 := KnightGrid(from, 6);
    assert g6 == [];
    assert KnightGrid(from, 2) == KnightRow(from, 2, -1) + g6;
  }

  /** The squares of one knight row. */
  lemma KnightRowMembers(from: Pair, i: int, t: Pair)
    ensures t in KnightRow(from, i, -1) <==>
      (t == Pair(from.col + i, from.row - 1) || t == Pair(from.col - 1, from.row + i)
       || t == Pair(from.col + i, from.row + 1) || t == Pair(from.col + 1, from.row + i))
  {
    KnightRowList(from, i);
  }

  /** The eight knight offsets in the order the generator visits them. */
  lemma KnightOffsetCases(d: Pair)
    ensures IsKnightOffset(d) <==>
      ((d.col == -2 && (d.row == -1 || d.row == 1)) || (d.col == 2 && (d.row == -1 || d.row == 1))
       || (d.row == -2 && (d.col == -1 || d.col == 1)) || (d.row == 2 && (d.col == -1 || d.col == 1)))
  {
  }

  /** The knight's destinations are exactly the eight knight offsets. */
  lemma KnightTargetsExact(from: Pair, t: Pair)
    ensures t in KnightGrid(from, -2) <==> IsKnightOffset(Pair(t.col - from.col, t.row - from.row))
  {
    KnightOffsetCases(Pair(t.col - from.col, t.row - from.row));
    KnightGridRows(from);
    KnightRowMembers(from, -2, t);
    KnightRowMembers(from, 2, t);
    var a := KnightRow(from, -2, -1);
    var b := KnightRow(from, 2, -1);
    assert t in a + b <==> t in a || t in b;
  }

  /** The knight tries eight squares. */
  lemma KnightGridLength(from: Pair)
    ensures |KnightGrid(from, -2)| == 8
  {
    KnightGridRows(from);
    KnightRowList(from, -2);
    KnightRowList(from, 2);
  }

  /** The king's inner loop unrolled. */
  lemma KingRowList(from: Pair, i: int)
    ensures KingRow(from, i, -1) == if i == 0 then [Pair(from.col, from.row - 1), Pair(from.col, from.row + 1)]
      else [Pair(from.col + i, from.row - 1), Pair(from.col + i, from.row), Pair(from.col + i, from.row + 1)]
  {
    assert KingRow(from, i, 1) == [Pair(from.col + i, from.row + 1)] + KingRow(from, i, 2);
    assert KingRow(from, i, 0) == (if i == 0 then [] else [Pair(from.col + i, from.row)]) + KingRow(from, i, 1);
  }

  /** The king's outer loop unrolled. */
  lemma KingGridRows(from: Pair)
    ensures KingGrid(from, -1) == KingRow(from, -1, -1) + KingRow(from, 0, -1) + KingRow(from, 1, -1)
  {
    var g2 := KingGrid(from, 2);
    assert g2 == [];
    var g1 := KingGrid(from, 1);
    assert g1 == KingRow(from, 1, -1) + g2;
    assert KingGrid(from, 0) == KingRow(from, 0, -1) + g1;
  }

  /** The squares of one king column. */
  lemma KingRowMembers(from: Pair, i: int, t: Pair)
    ensures t in KingRow(from, i, -1) <==>
      (t.col == from.col + i && from.row - 1 <= t.row <= from.row + 1 && (i != 0 || t.row != from.row))
  {
    KingRowList(from, i);
  }

  /** The king's neighbour loop yields exactly the eight king offsets. */
  lemma KingGridExact(from: Pair, t: Pair)
    ensures t in KingGrid(from, -1) <==> IsKingOffset(Pair(t.col - from.col, t.row - from.row))
  {
    KingGridRows(from);
    KingRowMembers(from, -1, t);
    KingRowMembers(from, 0, t);
    KingRowMembers(from, 1, t);
    var a := KingRow(from, -1, -1);
    var b := KingRow(from, 0, -1);
    var c := KingRow(from, 1, -1);
    assert t in a + b + c <==> t in a || t in b || t in c;
  }

  /** The king tries eight squares. */
  lemma KingGridLength(from: Pair)
    ensures |KingGrid(from, -1)| == 8
  {
    KingGridRows(from);
    KingRowList(from, -1);
    KingRowList(from, 0);
    KingRowList(from, 1);
  }

  /**
   * The pawn's rules: a single push onto an empty square, a double push only from
   * the home rank over two empty squares, a diagonal step only onto an opposing
   * piece or the en-passant target, and nothing else.
   */
  lemma PawnTargetsExact(pos: Position, from: Pair, white: bool, t: Pair)
    ensures var dir := if white then 1 else -1;
      t in PawnTargets(pos, from, white) <==>
        (t == Pair(from.col, from.row + dir) && PieceAt(pos.squares, t) == EMPTY)
        || (t == Pair(from.col, from.row + 2 * dir) && from.row == (if white then 1 else 6)
            && PieceAt(pos.squares, Pair(from.col, from.row + dir)) == EMPTY && PieceAt(pos.squares, t) == EMPTY)
        || ((t == Pair(from.col - 1, from.row + dir) || t == Pair(from.col + 1, from.row + dir)) && PawnCapturable(pos, t, white))
  {
    var b := pos.squares;
    var dir := if white then 1 else -1;
    var one := Pair(from.col, from.row + dir);
    var two := Pair(from.col, from.row + 2 * dir);
    var left := Pair(from.col - 1, from.row + dir);
    var right := Pair(from.col + 1, from.row + dir);
    var double := if from.row == (if white then 1 else 6) && PieceAt(b, one) == EMPTY && PieceAt(b, two) == EMPTY then [two] else [];
    var l := if PawnCapturable(pos, left, white) then [left] else [];
    var r := if PawnCapturable(pos, right, white) then [right] else [];
    var single := if PieceAt(b, one) == EMPTY then [one] else [];
    assert PawnTargets(pos, from, white) == double + l + r + single;
    assert t in double + l + r + single <==> t in double || t in l || t in r || t in single;
  }
  // ---- what the generator lists ----

  /** A destination of a pawn lands on the last rank exactly when the pawn starts from its seventh rank. */
  lemma PromotionAgreement(pos: Position, from: Pair, to: Pair)
    requires to in PseudoTargets(pos, from)
    ensures IsPromotionSquare(PieceAt(pos.squares, from), to) <==> PromotesFrom(PieceAt(pos.squares, from), from)
  {
    var piece := PieceAt(pos.squares, from);
    if IsPawn(piece) {
      PawnTargetsExact(pos, from, IsWhite(piece), to);
    }
  }

  /** Every move one destination contributes is legal and goes from `from` to `to`. */
  lemma ExpandSound(pos: Position, from: Pair, to: Pair, m: Move)
    requires m in Expand(pos, from, to)
    ensures m.from == from && m.to == to && IsLegal(pos, m)
  {
    ExpandOpen(pos, from, to);
    var piece := PieceAt(pos.squares, from);
    if PromotesFrom(piece, from) {
      var choices := PromotionChoices(IsWhite(piece));
      assert IsLegal(pos, Move(from, to, choices[0]));
      assert IsPromotionSquare(piece, to);
      var i :| 0 <= i < 4 && m == Move(from, to, choices[i]);
      PromotionChoiceIrrelevant(pos, from, to, choices[0], choices[i]);
    }
  }

  /**
   * A legal move is among those its destination contributes, provided the
   * destination's rank agrees with the generator's promotion test.
   */
  lemma ExpandComplete(pos: Position, m: Move)
    requires IsLegal(pos, m)
    requires IsPromotionSquare(PieceAt(pos.squares, m.from), m.to) <==> PromotesFrom(PieceAt(pos.squares, m.from), m.from)
    ensures m in Expand(pos, m.from, m.to)
  {
    ExpandOpen(pos, m.from, m.to);
    var piece := PieceAt(pos.squares, m.from);
    if PromotesFrom(piece, m.from) {
      var choices := PromotionChoices(IsWhite(piece));
      PromotionChoiceIrrelevant(pos, m.from, m.to, m.promotion, choices[0]);
    }
  }

  /**
   * A legal pawn move from the seventh rank is listed four times, promoting to
   * queen, rook, knight and bishop in that order (lines 725-730).
   */
  lemma PromotionFanOut(pos: Position, m: Move)
    requires IsLegal(pos, m) && m.to in PseudoTargets(pos, m.from) && PromotesFrom(PieceAt(pos.squares, m.from), m.from)
    ensures var white := IsWhite(PieceAt(pos.squares, m.from));
      Expand(pos, m.from, m.to) == [Move(m.from, m.to, OfColour(white, WQUEEN)), Move(m.from, m.to, OfColour(white, WROOK)),
                                    Move(m.from, m.to, OfColour(white, WKNIGHT)), Move(m.from, m.to, OfColour(white, WBISHOP))]
  {
    ExpandOpen(pos, m.from, m.to);
    var choices := PromotionChoices(IsWhite(PieceAt(pos.squares, m.from)));
    PromotionAgreement(pos, m.from, m.to);
    PromotionChoiceIrrelevant(pos, m.from, m.to, m.promotion, choices[0]);
  }

  /** The moves of a destination list are those of its members. */
  lemma {:induction false} ExpandAllMembers(pos: Position, from: Pair, ts: seq<Pair>, m: Move)
    ensures m in ExpandAll(pos, from, ts) <==> exists i :: 0 <= i < |ts| && m in Expand(pos, from, ts[i])
    decreases |ts|
  {
    if |ts| > 0 {
      var init := ts[..|ts| - 1];
      ExpandAllMembers(pos, from, init, m);
      assert forall i :: 0 <= i < |init| ==> init[i] == ts[i];
    }
  }

  /** The moves listed for one square: the legal moves of its piece onto the destinations it reaches. */
  lemma MovesFromExact(pos: Position, from: Pair, m: Move)
    ensures m in MovesFrom(pos, from) <==> m.from == from && m.to in PseudoTargets(pos, from) && IsLegal(pos, m)
  {
    var ts := PseudoTargets(pos, from);
    MovesFromOpen(pos, from);
    ExpandAllMembers(pos, from, ts, m);
    if m in MovesFrom(pos, from) {
      var i :| 0 <= i < |ts| && m in Expand(pos, from, ts[i]);
      ExpandSound(pos, from, ts[i], m);
    }
    if m.from == from && m.to in ts && IsLegal(pos, m) {
      var i :| 0 <= i < |ts| && ts[i] == m.to;
      PromotionAgreement(pos, from, m.to);
      ExpandComplete(pos, m);
    }
  }

  /** The moves of the first n squares of the scan are those listed for one of them. */
  lemma {:induction false} MovesBeforeMembers(pos: Position, n: nat, m: Move)
    requires n <= 64
    ensures m in MovesBefore(pos, n) <==> exists k :: 0 <= k < n && m in MovesFrom(pos, ScanSquare(k))
  {
    if n > 0 {
      MovesBeforeMembers(pos, n - 1, m);
    }
  }

  /**
   * getMoveList lists exactly the legal moves onto a destination the piece's
   * movement rules reach.
   */
  lemma LegalMovesExact(pos: Position, m: Move)
    ensures m in LegalMoves(pos) <==> m.to in PseudoTargets(pos, m.from) && IsLegal(pos, m)
  {
    MovesBeforeMembers(pos, 64, m);
    if m in LegalMoves(pos) {
      var k :| 0 <= k < 64 && m in MovesFrom(pos, ScanSquare(k));
      MovesFromExact(pos, ScanSquare(k), m);
    }
    if m.to in PseudoTargets(pos, m.from) && IsLegal(pos, m) {
      var k := m.from.col * 8 + m.from.row;
      assert ScanSquare(k) == m.from;
      MovesFromExact(pos, m.from, m);
    }
  }
}
