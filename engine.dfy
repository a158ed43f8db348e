/**
 * The Chessboard struct and its methods (pkg/chessboard/chessboard.go:136-149, 260-775;
 * the draft chessboard.go:37-569) as a class that updates its fields in place. The
 * board is the thirteen bitboards BoardState, slot k holding the squares of piece kind
 * k and slot 0 unused. Every method is proved against the function of the Game,
 * Attacks, Legality, MoveGen, Execution or Fen module that states what it computes,
 * read on Snapshot(), the position the fields hold.
 */
module Engine {
  import opened Wrappers
  import opened Coords
  import opened Pieces
  import opened Bitboards
  import opened Game
  import opened Attacks
  import opened Legality
  import opened MoveGen
  import opened Execution
  import opened Fen

  class Chessboard {
    var boardState: array<bv64>
    var whiteToMove: bool
    var enPassantSquare: Option<Pair>
    var blackKingCastle: bool
    var blackQueenCastle: bool
    var whiteKingCastle: bool
    var whiteQueenCastle: bool
    var halfmoveClock: int
    var fullmoveCounter: int

    /**
     * Thirteen bitboards, slot 0 empty, no square owned twice. The second half sits
     * behind two levels of recursion on `depth`, so that a method that does not touch
     * the bitboards keeps Valid() without re-deriving it; Stored opens it.
     */
    ghost predicate Valid()
      reads this`boardState, boardState
    {
      boardState.Length == 13 && StoreSound(boardState[..], 2)
    }

    lemma Stored()
      ensures Valid() <==> boardState.Length == 13 && WellFormed(boardState[..])
    {
      assert StoreSound(boardState[..], 2) == StoreSound(boardState[..], 1) == StoreSound(boardState[..], 0);
    }

    /**
     * The board read square by square, reached through two levels of recursion on
     * `depth` so that the methods that only look squares up see Board() as a value
     * described by their callees' contracts; BoardIsView opens it.
     */
    function BoardAt(depth: nat): Squares
      reads this`boardState, boardState
      requires Valid()
    {
      if depth == 0 then View(boardState[..]) else BoardAt(depth - 1)
    }

    function Board(): Squares
      reads this`boardState, boardState
      requires Valid()
    {
      BoardAt(2)
    }

    lemma BoardIsView()
      requires Valid()
      ensures Board() == View(boardState[..])
    {
      assert BoardAt(2) == BoardAt(1) == BoardAt(0);
    }

    /** The position the fields hold. */
    function Snapshot(): Position
      reads this, boardState
      requires Valid()
    {
      Position(Board(), whiteToMove, enPassantSquare, blackKingCastle, blackQueenCastle,
        whiteKingCastle, whiteQueenCastle, halfmoveClock, fullmoveCounter)
    }

    /** A board holding the position p on the given bitboards. */
    constructor Holding(bits: array<bv64>, p: Position)
      requires bits.Length == 13 && WellFormed(bits[..]) && View(bits[..]) == p.squares
      ensures boardState == bits && Valid() && Snapshot() == p
    {
      boardState := bits;
      whiteToMove := p.whiteToMove;
      enPassantSquare := p.enPassant;
      blackKingCastle := p.blackKingCastle;
      blackQueenCastle := p.blackQueenCastle;
      whiteKingCastle := p.whiteKingCastle;
      whiteQueenCastle := p.whiteQueenCastle;
      halfmoveClock := p.halfmoveClock;
      fullmoveCounter := p.fullmoveCounter;
      new;
      Stored();
      BoardIsView();
    }

    /** A copy on fresh bitboards, the scratch board of the legality check. */
    method Copy() returns (c: Chessboard)
      requires Valid()
      ensures fresh(c) && fresh(c.boardState) && c.Valid() && c.Snapshot() == Snapshot()
    {
      var bits := new bv64[13];
      for k := 0 to 13
        invariant bits[..k] == boardState[..k]
      {
        bits[k] := boardState[k];
      }
      assert bits[..] == bits[..13] && boardState[..] == boardState[..13];
      Stored();
      BoardIsView();
      c := new Chessboard.Holding(bits, Snapshot());
      c.BoardIsView();
    }

    // ---- CreateChessboard ----

    /**
     * CreateChessboard (lines 187-255) on its argument: the six fields split at
     * spaces, the placement read onto fresh bitboards, White to move exactly on "w",
     * a right for each of K, Q, k, q in the castling field, the en-passant square and
     * the two clocks. A missing field, a malformed placement or square and a
     * malformed number are errors.
     */
    static method CreateChessboard(fen: string) returns (r: Result<Chessboard, FenError>)
      ensures r.Ok? <==> ParseFen(fen).Ok?
      ensures r.Err? ==> ParseFen(fen) == Err(r.error)
      ensures r.Ok? ==> fresh(r.value) && fresh(r.value.boardState) && r.value.Valid()
      ensures r.Ok? ==> r.value.Snapshot() == ParseFen(fen).value
    {
      var fields := Split(fen, ' ');
      if |fields| < 6 {
        return Err(MissingField);
      }
      var placed := ReadPlacement(fields[0]);
      if placed.Err? {
        return Err(placed.error);
      }
      var bits := placed.value;
      var whiteKing, whiteQueen, blackKing, blackQueen := false, false, false, false;
      var rights := fields[2];
      for j := 0 to |rights|
        invariant whiteKing == ('K' in rights[..j]) && whiteQueen == ('Q' in rights[..j])
        invariant blackKing == ('k' in rights[..j]) && blackQueen == ('q' in rights[..j])
      {
        assert rights[..j + 1] == rights[..j] + [rights[j]];
        var c := rights[j];
        if c == 'K' {
          whiteKing := true;
        }
        if c == 'Q' {
          whiteQueen := true;
        }
        if c == 'k' {
          blackKing := true;
        }
        if c == 'q' {
          blackQueen := true;
        }
      }
      assert rights[..|rights|] == rights;
      var ep := EnPassantField(fields[3]);
      if ep.Err? {
        return Err(ep.error);
      }
      var half := NumberField(fields[4]);
      if half.Err? {
        return Err(half.error);
      }
      var full := NumberField(fields[5]);
      if full.Err? {
        return Err(full.error);
      }
      var pos := Position(View(bits[..]), fields[1] == "w", ep.value, blackKing, blackQueen, whiteKing, whiteQueen,
        half.value, full.value);
      var c := new Chessboard.Holding(bits, pos);
      return Ok(c);
    }

    // ---- the store: erasePiece, putPiece, getPiece ----

    /** The loop of erasePiece (lines 266-268): bit n cleared in every bitboard. */
    method ClearSquare(n: nat)
      requires boardState.Length == 13 && n < 64
      modifies boardState
      ensures boardState[..] == Cleared(old(boardState[..]), n)
    {
      ghost var before := boardState[..];
      for i := 0 to 13
        invariant forall k :: 0 <= k < i ==> boardState[k] == Clear(before[k], n)
        invariant forall k :: i <= k < 13 ==> boardState[k] == before[k]
      {
        boardState[i] := Clear(boardState[i], n);
      }
      assert boardState[..] == Cleared(before, n);
    }

    /** erasePiece (lines 261-269): the square's bit cleared in all thirteen bitboards. */
    method ErasePiece(s: Pair)
      requires Valid() && InBounds(s)
      modifies boardState
      ensures Valid() && boardState[..] == Cleared(old(boardState[..]), PairToInt(s))
      ensures Board() == Erase(old(Board()), s) && Snapshot() == old(Snapshot()).(squares := Board())
    {
      var n := PairToInt(s);
      ghost var before := boardState[..];
      Stored();
      BoardIsView();
      ClearSquare(n);
      ClearedWellFormed(before, n);
      ViewCleared(before, n);
      Stored();
      BoardIsView();
    }

    /** putPiece (lines 271-276): erase the square, then set its bit in bitboard `piece`. */
    method PutPiece(s: Pair, piece: Kind)
      requires Valid() && InBounds(s) && piece != EMPTY
      modifies boardState
      ensures Valid() && boardState[..] == Placed(old(boardState[..]), PairToInt(s), piece)
      ensures Board() == Put(old(Board()), s, piece) && Snapshot() == old(Snapshot()).(squares := Board())
    {
      var n := PairToInt(s);
      ghost var before := boardState[..];
      Stored();
      BoardIsView();
      ErasePiece(s);
      boardState[piece] := SetBit(boardState[piece], n);
      assert boardState[..] == Placed(before, n, piece);
      PlacedWellFormed(before, n, piece);
      ViewPlaced(before, n, piece);
      Stored();
      BoardIsView();
    }

    /** Lines 494-495: the piece taken off `from` and put on `to`. */
    method Displace(from: Pair, to: Pair, piece: Kind)
      requires Valid() && InBounds(from) && InBounds(to) && piece != EMPTY
      modifies boardState
      ensures Valid() && Board() == Put(Erase(old(Board()), from), to, piece)
      ensures Snapshot() == old(Snapshot()).(squares := Board())
    {
      ErasePiece(from);
      PutPiece(to, piece);
    }

    /** The loop of getPiece (lines 521-525), with the bit test `!= 0`: the first bitboard owning square n. */
    method Owner(n: nat) returns (piece: Kind)
      requires boardState.Length == 13 && n < 64
      ensures piece == Occupant(boardState[..], n)
    {
      ghost var b := boardState[..];
      for i := 0 to 13
        invariant Occupant(b, n) == FirstOwner(b, n, i)
      {
        if Bit(boardState[i], n) {
          return i;
        }
      }
      return EMPTY;
    }

    /** getPiece (lines 517-527): the kind on the square, 0 for an empty or off-board square. */
    method GetPiece(square: Pair) returns (piece: Kind)
      requires Valid()
      ensures piece == PieceAt(Board(), square)
    {
      if !InBounds(square) {
        return EMPTY;
      }
      piece := Owner(PairToInt(square));
      BoardIsView();
    }

    // ---- the attack evaluator: SquareIsThreatened ----

    /** The offset loops of lines 287-298 (and 341-352): some square t + offset holds `kind`. */
    method OffsetThreat(t: Pair, offsets: seq<Pair>, kind: Kind) returns (hit: bool)
      requires Valid()
      ensures hit == OffsetHit(Board(), t, offsets, kind)
    {
      for i := 0 to |offsets|
        invariant forall j :: 0 <= j < i ==> PieceAt(Board(), AddPair(t, offsets[j])) != kind
      {
        var piece := GetPiece(AddPair(t, offsets[i]));
        if piece == kind {
          return true;
        }
      }
      return false;
    }

    /**
     * One ray of lines 301-314 (and 355-368), walking outward: an empty square is
     * passed, the first occupied square ends the ray, and the ray hits when that
     * square holds k1 or k2.
     */
    method RayThreat(t: Pair, d: Pair, k1: Kind, k2: Kind) returns (hit: bool)
      requires Valid() && IsDirection(d) && k1 != EMPTY && k2 != EMPTY
      ensures hit == (FirstOccupied(Board(), AddPair(t, d), d) == k1 || FirstOccupied(Board(), AddPair(t, d), d) == k2)
    {
      var next := AddPair(t, d);
      while InBounds(next)
        invariant FirstOccupied(Board(), AddPair(t, d), d) == FirstOccupied(Board(), next, d)
        decreases RayMeasure(next, d)
      {
        var piece := GetPiece(next);
        if piece == k1 || piece == k2 {
          return true;
        }
        if piece != EMPTY {
          return false;
        }
        next := AddPair(next, d);
      }
      return false;
    }

    /** The slide loops (lines 299-332 and 353-386): some ray from t first meets k1 or k2. */
    method SlideThreat(t: Pair, dirs: seq<Pair>, k1: Kind, k2: Kind) returns (hit: bool)
      requires Valid() && AllDirections(dirs) && k1 != EMPTY && k2 != EMPTY
      ensures hit == SlideHit(Board(), t, dirs, k1, k2)
    {
      ghost var b := Board();
      for i := 0 to |dirs|
        invariant forall j :: 0 <= j < i ==>
          !(FirstOccupied(b, AddPair(t, dirs[j]), dirs[j]) == k1 || FirstOccupied(b, AddPair(t, dirs[j]), dirs[j]) == k2)
      {
        hit := RayThreat(t, dirs[i], k1, k2);
        if hit {
          return true;
        }
      }
      return false;
    }

    /**
     * SquareIsThreatened (lines 278-389): `white` names the DEFENDING side, and the
     * result says whether the other side attacks p. The pawn test looks at both
     * diagonal files on the attacker's side of p.
     */
    method SquareIsThreatened(white: bool, p: Pair) returns (threatened: bool)
      requires Valid()
      ensures threatened == Attacked(Board(), !white, p)
    {
      var attacker := !white;
      var pawnRow := if attacker then -1 else 1;
      var left := GetPiece(AddPair(p, Pair(-1, pawnRow)));
      var right := GetPiece(AddPair(p, Pair(1, pawnRow)));
      if left == OfColour(attacker, WPAWN) || right == OfColour(attacker, WPAWN) {
        return true;
      }
      threatened := OffsetThreat(p, KnightMoves, OfColour(attacker, WKNIGHT));
      if threatened {
        return;
      }
      threatened := OffsetThreat(p, KingMoves, OfColour(attacker, WKING));
      if threatened {
        return;
      }
      threatened := SlideThreat(p, BishopSlides, OfColour(attacker, WBISHOP), OfColour(attacker, WQUEEN));
      if threatened {
        return;
      }
      threatened := SlideThreat(p, RookSlides, OfColour(attacker, WROOK), OfColour(attacker, WQUEEN));
    }

    // ---- GetKingPosition ----

    /**
     * GetKingPosition (lines 391-402), with the bit test `!= 0`: the lowest square
     * holding the king of the side to move; None where the source returns the
     * off-board pair intToPair(64).
     */
    method GetKingPosition() returns (r: Option<Pair>)
      requires Valid()
      ensures r == KingSquare(Board(), whiteToMove)
    {
      var king := if whiteToMove then WKING else BKING;
      assert king == OfColour(whiteToMove, WKING);
      ghost var b := boardState[..];
      Stored();
      for i := 0 to 64
        invariant forall j :: 0 <= j < i ==> !Bit(b[king], j)
      {
        if Bit(boardState[king], i) {
          KingScanSkip(b, king, i);
          OccupantIff(b, i, king);
          BoardIsView();
          KingSquareOpen(View(b), whiteToMove);
          return Some(IntToPair(i));
        }
      }
      KingScanSkip(b, king, 64);
      BoardIsView();
      KingSquareOpen(View(b), whiteToMove);
      return None;
    }
    // ---- CheckMoveLegality ----

    /** No square of the list is attacked by the side opposing `white`. */
    method SquaresSafe(white: bool, squares: seq<Pair>) returns (safe: bool)
      requires Valid()
      ensures safe == forall i :: 0 <= i < |squares| ==> !Attacked(Board(), !white, squares[i])
    {
      ghost var b := Board();
      for i := 0 to |squares|
        invariant forall j :: 0 <= j < i ==> !Attacked(b, !white, squares[j])
      {
        var threatened := SquareIsThreatened(white, squares[i]);
        if threatened {
          return false;
        }
      }
      return true;
    }

    /** The squares of the list are all empty. */
    method SquaresEmpty(squares: seq<Pair>) returns (empty: bool)
      requires Valid()
      ensures empty == forall i :: 0 <= i < |squares| ==> PieceAt(Board(), squares[i]) == EMPTY
    {
      for i := 0 to |squares|
        invariant forall j :: 0 <= j < i ==> PieceAt(Board(), squares[j]) == EMPTY
      {
        var piece := GetPiece(squares[i]);
        if piece != EMPTY {
          return false;
        }
      }
      return true;
    }

    /**
     * The castling cases of CheckMoveLegality (lines 436-489): the right, the three
     * squares free of the opponent's attacks (the defending side named correctly),
     * the squares between king and rook empty.
     */
    method CastlingAllowed(c: Castle) returns (allowed: bool)
      requires Valid()
      ensures allowed == CastleAllowed(Snapshot(), c)
    {
      var right := match c
        case BlackQueenSide => blackQueenCastle
        case BlackKingSide => blackKingCastle
        case WhiteQueenSide => whiteQueenCastle
        case WhiteKingSide => whiteKingCastle;
      if !right {
        return false;
      }
      allowed := SquaresSafe(CastlingWhite(c), KingPath(c));
      if allowed {
        allowed := SquaresEmpty(BetweenSquares(c));
      }
    }

    /**
     * The simulation of lines 496-499 on a scratch copy: the move made, and the
     * passed pawn of an en-passant capture removed.
     */
    method Simulate(m: Move, fromPiece: Kind) returns (scratch: Chessboard)
      requires Valid() && InBounds(m.from) && InBounds(m.to)
      requires fromPiece != EMPTY && fromPiece == PieceAt(Board(), m.from)
      ensures fresh(scratch) && fresh(scratch.boardState) && scratch.Valid()
      ensures scratch.Board() == Simulated(Snapshot(), m) && scratch.whiteToMove == whiteToMove
    {
      ghost var pos := Snapshot();
      scratch := Copy();
      scratch.Displace(m.from, m.to, fromPiece);
      ghost var moved := scratch.Board();
      var passed := PassedPawnSquare(m);
      if IsPawn(fromPiece) && enPassantSquare == Some(m.to) && m.from.col != m.to.col && m.from.row != m.to.row
        && InBounds(passed)
      {
        assert IsEnPassantCapture(pos, m);
        scratch.ErasePiece(passed);
        assert scratch.Board() == Erase(moved, passed);
      } else {
        assert !(IsEnPassantCapture(pos, m) && InBounds(passed));
      }
      assert Simulated(pos, m) == scratch.Board();
    }

    /** Lines 498-499: the side to move has no king or its king is not attacked. */
    method KingSafe() returns (safe: bool)
      requires Valid()
      ensures safe == !InCheck(Board(), whiteToMove)
    {
      var king := GetKingPosition();
      safe := KingSafeAt(king);
    }

    /** Line 499 for the king found: no king, or the opponent does not attack its square. */
    method KingSafeAt(king: Option<Pair>) returns (safe: bool)
      requires Valid() && king == KingSquare(Board(), whiteToMove)
      ensures safe == !InCheck(Board(), whiteToMove)
    {
      if king.None? {
        return true;
      }
      var threatened := SquareIsThreatened(whiteToMove, king.value);
      safe := !threatened;
    }

    /** King safety after the move (lines 496-514), evaluated on the scratch copy. */
    method KingSafeAfter(m: Move, fromPiece: Kind) returns (safe: bool)
      requires Valid() && InBounds(m.from) && InBounds(m.to)
      requires fromPiece != EMPTY && fromPiece == PieceAt(Board(), m.from)
      ensures safe == !InCheck(Simulated(Snapshot(), m), whiteToMove)
    {
      var scratch := Simulate(m, fromPiece);
      safe := scratch.KingSafe();
    }

    /**
     * The gates of CheckMoveLegality (lines 404-424, both squares bounds-checked) and
     * the promotion gate; on success the moving piece is returned.
     */
    method GatesHold(m: Move) returns (ok: bool, fromPiece: Kind)
      requires Valid()
      ensures ok == Gates(Snapshot(), m)
      ensures ok ==> fromPiece != EMPTY && fromPiece == PieceAt(Board(), m.from)
    {
      if !(InBounds(m.from) && InBounds(m.to)) {
        return false, EMPTY;
      }
      fromPiece := GetPiece(m.from);
      if fromPiece == EMPTY {
        return false, EMPTY;
      }
      var toPiece := GetPiece(m.to);
      if toPiece != EMPTY && IsWhite(toPiece) == IsWhite(fromPiece) {
        return false, fromPiece;
      }
      if IsWhite(fromPiece) != whiteToMove {
        return false, fromPiece;
      }
      ok := PromotionOk(fromPiece, m.to, m.promotion);
    }

    /**
     * CheckMoveLegality (lines 404-515): the gates, then the castling conditions or
     * king safety on the scratch board.
     */
    method CheckMoveLegality(m: Move) returns (legal: bool)
      requires Valid()
      ensures legal == IsLegal(Snapshot(), m)
    {
      ghost var pos := Snapshot();
      var ok, fromPiece := GatesHold(m);
      if !ok {
        assert !Gates(pos, m);
        return false;
      }
      var castle := CastleOf(fromPiece, m);
      assert castle == CastleOf(PieceAt(pos.squares, m.from), m);
      match castle
      case Some(c) =>
        legal := CastlingAllowed(c);
        assert IsLegal(pos, m) == CastleAllowed(pos, c);
        assert legal == IsLegal(pos, m);
      case None =>
        legal := KingSafeAfter(m, fromPiece);
        assert IsLegal(pos, m) == !InCheck(Simulated(pos, m), pos.whiteToMove);
        assert legal == IsLegal(pos, m);
    }
    // ---- getMoveList ----

    /** The pawn cases of lines 547-581. */
    method PawnDestinations(from: Pair, white: bool) returns (ts: seq<Pair>)
      requires Valid()
      ensures ts == PawnTargets(Snapshot(), from, white)
    {
      var dir := if white then 1 else -1;
      var one := Pair(from.col, from.row + dir);
      var two := Pair(from.col, from.row + 2 * dir);
      var left := Pair(from.col - 1, from.row + dir);
      var right := Pair(from.col + 1, from.row + dir);
      var onePiece := GetPiece(one);
      var twoPiece := GetPiece(two);
      var leftPiece := GetPiece(left);
      var rightPiece := GetPiece(right);
      ghost var pos := Snapshot();
      ghost var double := if from.row == (if white then 1 else 6) && onePiece == EMPTY && twoPiece == EMPTY then [two] else [];
      ghost var l := if IsOpponent(leftPiece, white) || enPassantSquare == Some(left) then [left] else [];
      ghost var r := if IsOpponent(rightPiece, white) || enPassantSquare == Some(right) then [right] else [];
      ghost var single := if onePiece == EMPTY then [one] else [];
      assert PawnTargets(pos, from, white) == double + l + r + single by {
        assert pos.squares == Board() && pos.enPassant == enPassantSquare;
      }
      ts := [];
      if from.row == (if white then 1 else 6) && onePiece == EMPTY && twoPiece == EMPTY {
        ts := ts + [two];
      }
      assert ts == double;
      if IsOpponent(leftPiece, white) || enPassantSquare == Some(left) {
        ts := ts + [left];
      }
      assert ts == double + l;
      if IsOpponent(rightPiece, white) || enPassantSquare == Some(right) {
        ts := ts + [right];
      }
      assert ts == double + l + r;
      if onePiece == EMPTY {
        ts := ts + [one];
      }
      assert ts == double + l + r + single;
    }

    /** The king cases of lines 582-606: the castling squares of its colour's rights, then the neighbour loops. */
    method KingDestinations(from: Pair, white: bool) returns (ts: seq<Pair>)
      requires Valid()
      ensures ts == KingTargets(Snapshot(), from, white)
    {
      var kingSide := if white then whiteKingCastle else blackKingCastle;
      var queenSide := if white then whiteQueenCastle else blackQueenCastle;
      ts := [];
      if kingSide {
        ts := ts + [Pair(from.col + 2, from.row)];
      }
      if queenSide {
        ts := ts + [Pair(from.col - 2, from.row)];
      }
      var neighbours := KingNeighbours(from);
      ts := ts + neighbours;
    }

    /** The outer loop of the king's neighbours (lines 598-606): column offsets -1, 0, 1. */
    static method KingNeighbours(from: Pair) returns (ts: seq<Pair>)
      ensures ts == KingGrid(from, -1)
    {
      ts := [];
      var i := -1;
      while i < 2
        invariant -1 <= i <= 2
        invariant ts + KingGrid(from, i) == KingGrid(from, -1)
      {
        var column := KingColumn(from, i);
        assert KingGrid(from, i) == column + KingGrid(from, i + 1);
        AppendAssociative(ts, column, KingGrid(from, i + 1));
        ts := ts + column;
        i := i + 1;
      }
      assert KingGrid(from, 2) == [];
      assert ts == ts + KingGrid(from, 2);
    }

    /** The inner loop of the king's neighbours (lines 598-606) for column offset i. */
    static method KingColumn(from: Pair, i: int) returns (ts: seq<Pair>)
      requires i <= 2
      ensures ts == KingRow(from, i, -1)
    {
      ts := [];
      var j := -1;
      while j < 2
        invariant -1 <= j <= 2
        invariant ts + KingRow(from, i, j) == KingRow(from, i, -1)
      {
        var square := if i == j && i == 0 then [] else [Pair(from.col + i, from.row + j)];
        assert KingRow(from, i, j) == square + KingRow(from, i, j + 1);
        AppendAssociative(ts, square, KingRow(from, i, j + 1));
        ts := ts + square;
        j := j + 1;
      }
    }

    /** The knight loops of lines 607-615. */
    method KnightDestinations(from: Pair) returns (ts: seq<Pair>)
      ensures ts == KnightGrid(from, -2)
    {
      ts := [];
      var i := -2;
      while i < 5
        invariant i == -2 || i == 2 || i == 6
        invariant ts + KnightGrid(from, i) == KnightGrid(from, -2)
      {
        var column := KnightColumn(from, i);
        assert KnightGrid(from, i) == column + KnightGrid(from, i + 4);
        AppendAssociative(ts, column, KnightGrid(from, i + 4));
        ts := ts + column;
        i := i + 4;
      }
    }

    /** The inner knight loop (lines 611-614) for offset i: j = -1, 1. */
    static method KnightColumn(from: Pair, i: int) returns (ts: seq<Pair>)
      ensures ts == KnightRow(from, i, -1)
    {
      ts := [];
      var j := -1;
      while j < 2
        invariant j == -1 || j == 1 || j == 3
        invariant ts + KnightRow(from, i, j) == KnightRow(from, i, -1)
      {
        var pair := [Pair(from.col + i, from.row + j), Pair(from.col + j, from.row + i)];
        assert KnightRow(from, i, j) == pair + KnightRow(from, i, j + 2);
        AppendAssociative(ts, pair, KnightRow(from, i, j + 2));
        ts := ts + pair;
        j := j + 2;
      }
    }

    /** One ray of the slide loop (lines 698-714, corrected to walk the ray). */
    method RayDestinations(s: Pair, d: Pair, white: bool) returns (ts: seq<Pair>)
      requires Valid() && IsDirection(d)
      ensures ts == RayTargets(Board(), s, d, white)
    {
      ghost var b := Board();
      ts := [];
      var current := s;
      while InBounds(current)
        invariant ts + RayTargets(b, current, d, white) == RayTargets(b, s, d, white)
        decreases RayMeasure(current, d)
      {
        var piece := GetPiece(current);
        if piece != EMPTY {
          if IsWhite(piece) != white {
            ts := ts + [current];
          }
          return;
        }
        var next := AddPair(current, d);
        RayMeasureDecreases(current, d);
        assert RayTargets(b, current, d, white) == [current] + RayTargets(b, next, d, white);
        AppendAssociative(ts, [current], RayTargets(b, next, d, white));
        ts := ts + [current];
        current := next;
      }
    }

    /** The slide loop over a direction list (lines 698-715). */
    method SlideDestinations(from: Pair, dirs: seq<Pair>, white: bool) returns (ts: seq<Pair>)
      requires Valid() && AllDirections(dirs)
      ensures ts == SlideTargets(Board(), from, dirs, white)
    {
      ts := [];
      for i := 0 to |dirs|
        invariant ts == SlideTargets(Board(), from, dirs[..i], white)
      {
        var ray := RayDestinations(AddPair(from, dirs[i]), dirs[i], white);
        assert dirs[..i + 1][..i] == dirs[..i];
        ts := ts + ray;
      }
      assert dirs[..|dirs|] == dirs;
    }

    /** The destinations the generator tries from one square (lines 540-715). */
    method Destinations(from: Pair) returns (piece: Kind, ts: seq<Pair>)
      requires Valid()
      ensures piece == PieceAt(Board(), from) && ts == PseudoTargets(Snapshot(), from)
    {
      piece := GetPiece(from);
      var white := IsWhite(piece);
      if IsPawn(piece) {
        ts := PawnDestinations(from, white);
      } else if IsKing(piece) {
        ts := KingDestinations(from, white);
      } else if piece == WKNIGHT || piece == BKNIGHT {
        ts := KnightDestinations(from);
      } else {
        ts := SlideDestinations(from, DirectionsOf(piece), white);
      }
    }

    /** The moves one destination contributes (lines 716-731). */
    method ExpandOne(from: Pair, to: Pair, piece: Kind) returns (moves: seq<Move>)
      requires Valid() && piece == PieceAt(Board(), from)
      ensures moves == Expand(Snapshot(), from, to)
    {
      if PromotesFrom(piece, from) {
        var choices := PromotionChoices(IsWhite(piece));
        var legal := CheckMoveLegality(Move(from, to, choices[0]));
        moves := if legal then [Move(from, to, choices[0]), Move(from, to, choices[1]), Move(from, to, choices[2]), Move(from, to, choices[3])] else [];
      } else {
        var legal := CheckMoveLegality(Move(from, to, EMPTY));
        moves := if legal then [Move(from, to, EMPTY)] else [];
      }
      ExpandOpen(Snapshot(), from, to);
    }

    /** The legality loop over the destinations of one square (lines 716-732). */
    method ExpandDestinations(from: Pair, piece: Kind, ts: seq<Pair>) returns (moves: seq<Move>)
      requires Valid() && piece == PieceAt(Board(), from)
      ensures moves == ExpandAll(Snapshot(), from, ts)
    {
      moves := [];
      for i := 0 to |ts|
        invariant moves == ExpandAll(Snapshot(), from, ts[..i])
      {
        var more := ExpandOne(from, ts[i], piece);
        assert ts[..i + 1][..i] == ts[..i];
        moves := moves + more;
      }
      assert ts[..|ts|] == ts;
    }

    /** The moves of the piece on one square: its destinations, each checked for legality. */
    method MovesOf(from: Pair) returns (moves: seq<Move>)
      requires Valid()
      ensures moves == MovesFrom(Snapshot(), from)
    {
      var piece, ts := Destinations(from);
      moves := ExpandDestinations(from, piece, ts);
      MovesFromOpen(Snapshot(), from);
    }

    /**
     * getMoveList (lines 533-736): the columns in the outer loop, the rows in the
     * inner one, each square's legal moves in destination order.
     */
    method GetMoveList() returns (moves: seq<Move>)
      requires Valid()
      ensures moves == LegalMoves(Snapshot())
    {
      ghost var pos := Snapshot();
      moves := [];
      for col := 0 to 8
        invariant moves == MovesBefore(pos, 8 * col)
      {
        for row := 0 to 8
          invariant moves == MovesBefore(pos, 8 * col + row)
        {
          ScanSquareOf(col, row);
          var more := MovesOf(Pair(col, row));
          assert MovesBefore(pos, 8 * col + row + 1) == MovesBefore(pos, 8 * col + row) + MovesFrom(pos, Pair(col, row));
          moves := moves + more;
        }
      }
    }
    // ---- makeMove ----

    /** Lines 768-769 applied to any square: the piece on `from` (possibly none) moved to `to`. */
    method Relocation(from: Pair, to: Pair)
      requires Valid() && InBounds(from) && InBounds(to)
      modifies boardState
      ensures Valid() && Board() == Relocate(old(Board()), from, to)
      ensures Snapshot() == old(Snapshot()).(squares := Board())
    {
      ghost var before := Board();
      var piece := GetPiece(from);
      if piece == EMPTY {
        ErasePiece(to);
        EraseIsPutEmpty(before, to);
      } else {
        PutPiece(to, piece);
      }
      assert Board() == Put(before, to, PieceAt(before, from));
      ErasePiece(from);
    }

    /** Lines 768-772: the piece moved from `from` to `to`, then replaced by the promotion piece if there is one. */
    method MoveSourcePiece(m: Move)
      requires Valid() && InBounds(m.from) && InBounds(m.to)
      modifies boardState
      ensures Valid() && Snapshot() == old(Snapshot()).(squares := SourceBoard(old(Snapshot()), m))
    {
      ghost var pos := Snapshot();
      Relocation(m.from, m.to);
      ghost var mid := Snapshot();
      assert mid == pos.(squares := Relocate(pos.squares, m.from, m.to));
      if m.promotion != EMPTY {
        PutPiece(m.to, m.promotion);
      }
    }

    /** The addition for en passant: the pawn passed over taken off the board when `take` holds. */
    method TakePassedPawn(passed: Pair, take: bool)
      requires Valid() && InBounds(passed)
      modifies boardState
      ensures Valid() && Snapshot() == old(Snapshot()).(squares := if take then Erase(old(Board()), passed) else old(Board()))
    {
      if take {
        ErasePiece(passed);
      }
    }

    /** The addition for castling: the rook moved beside the king. */
    method MoveCastlingRook(castle: Option<Castle>)
      requires Valid()
      modifies boardState
      ensures Valid() && Snapshot() == old(Snapshot()).(squares :=
        match castle case Some(c) => Relocate(old(Board()), RookFrom(c), RookTo(c)) case None => old(Board()))
    {
      match castle
      case Some(c) =>
        Relocation(RookFrom(c), RookTo(c));
      case None =>
    }

    /**
     * The board steps of makeMove (lines 768-772), then the additions: the pawn taken
     * en passant removed and a castling rook moved beside the king.
     */
    method UpdateBoard(m: Move)
      requires Valid() && InBounds(m.from) && InBounds(m.to)
      modifies boardState
      ensures Valid() && Snapshot() == old(Snapshot()).(squares := AppliedBoard(old(Snapshot()), m))
    {
      ghost var pos := Snapshot();
      var piece := GetPiece(m.from);
      var enPassantCapture := IsPawn(piece) && enPassantSquare == Some(m.to) && m.from.col != m.to.col && m.from.row != m.to.row;
      assert enPassantCapture == IsEnPassantCapture(pos, m);
      var castle := CastleOf(piece, m);
      MoveSourcePiece(m);
      ghost var s1 := Snapshot();
      assert s1 == pos.(squares := SourceBoard(pos, m));
      TakePassedPawn(PassedPawnSquare(m), enPassantCapture);
      MoveCastlingRook(castle);
    }

    /** The four castling rights set to the given values, nothing else changed. */
    method SetRights(bk: bool, bq: bool, wk: bool, wq: bool)
      requires Valid()
      modifies this
      ensures Valid() && boardState == old(boardState)
      ensures Snapshot() == old(Snapshot()).(blackKingCastle := bk, blackQueenCastle := bq,
        whiteKingCastle := wk, whiteQueenCastle := wq)
    {
      blackKingCastle := bk;
      blackQueenCastle := bq;
      whiteKingCastle := wk;
      whiteQueenCastle := wq;
    }

    /** The side to move, the en-passant target and the clocks set to the given values, nothing else changed. */
    method SetClocks(white: bool, target: Option<Pair>, halfmove: int, fullmove: int)
      requires Valid()
      modifies this
      ensures Valid() && boardState == old(boardState)
      ensures Snapshot() == old(Snapshot()).(whiteToMove := white, enPassant := target,
        halfmoveClock := halfmove, fullmoveCounter := fullmove)
    {
      whiteToMove := white;
      enPassantSquare := target;
      halfmoveClock := halfmove;
      fullmoveCounter := fullmove;
    }

    /** Every field but the bitboards set to the given values. */
    method SetRecords(white: bool, target: Option<Pair>, bk: bool, bq: bool, wk: bool, wq: bool, halfmove: int, fullmove: int)
      requires Valid()
      modifies this
      ensures Valid() && boardState == old(boardState)
      ensures Snapshot() == old(Snapshot()).(whiteToMove := white, enPassant := target,
        blackKingCastle := bk, blackQueenCastle := bq, whiteKingCastle := wk, whiteQueenCastle := wq,
        halfmoveClock := halfmove, fullmoveCounter := fullmove)
    {
      ghost var pos := Snapshot();
      SetRights(bk, bq, wk, wq);
      ghost var mid := Snapshot();
      assert mid == pos.(blackKingCastle := bk, blackQueenCastle := bq, whiteKingCastle := wk, whiteQueenCastle := wq);
      SetClocks(white, target, halfmove, fullmove);
      assert Snapshot() == mid.(whiteToMove := white, enPassant := target, halfmoveClock := halfmove, fullmoveCounter := fullmove);
    }

    /** The additions to the rest of the position: side, en-passant target, rights and clocks. */
    method UpdateRecords(m: Move, piece: Kind, capture: bool)
      requires Valid()
      modifies this
      ensures Valid() && boardState == old(boardState)
      ensures Snapshot() == NextRecords(old(Snapshot()), m, piece, capture)
    {
      var next := NextRecords(Snapshot(), m, piece, capture);
      SetRecords(next.whiteToMove, next.enPassant, next.blackKingCastle, next.blackQueenCastle,
        next.whiteKingCastle, next.whiteQueenCastle, next.halfmoveClock, next.fullmoveCounter);
    }

    /** A legal move carried out: the board and the rest of the position as ApplyMove states. */
    method ApplyLegal(m: Move)
      requires Valid() && InBounds(m.from) && InBounds(m.to)
      modifies this, boardState
      ensures Valid() && boardState == old(boardState) && Snapshot() == ApplyMove(old(Snapshot()), m)
    {
      var piece := GetPiece(m.from);
      var target := GetPiece(m.to);
      var capture := target != EMPTY
        || (IsPawn(piece) && enPassantSquare == Some(m.to) && m.from.col != m.to.col && m.from.row != m.to.row);
      CarryOut(m, piece, capture);
    }

    /** The move carried out once the moving piece and whether it captures are known. */
    method CarryOut(m: Move, piece: Kind, capture: bool)
      requires Valid() && InBounds(m.from) && InBounds(m.to) && piece == PieceAt(Board(), m.from)
      requires capture == (PieceAt(Board(), m.to) != EMPTY || IsEnPassantCapture(Snapshot(), m))
      modifies this, boardState
      ensures Valid() && boardState == old(boardState) && Snapshot() == ApplyMove(old(Snapshot()), m)
    {
      ghost var pos := Snapshot();
      UpdateBoard(m);
      ghost var mid := Snapshot();
      assert mid == pos.(squares := AppliedBoard(pos, m));
      UpdateRecords(m, piece, capture);
      ApplyMoveInSteps(pos, m);
    }

    /**
     * makeMove (lines 738-775): decode the token, reject a malformed or illegal move
     * and leave the position as it was, otherwise carry the move out.
     */
    method MakeMove(t: string) returns (err: Option<MoveError>)
      requires Valid()
      modifies this, boardState
      ensures Valid() && boardState == old(boardState)
      ensures var r := Execution.MakeMove(old(Snapshot()), t);
        (r.Err? ==> err == Some(r.error) && Snapshot() == old(Snapshot()))
        && (r.Ok? ==> err == None && Snapshot() == r.value)
    {
      var parsed := ParseToken(t);
      if parsed.Err? {
        return Some(parsed.error);
      }
      var m := parsed.value;
      var legal := CheckMoveLegality(m);
      if !legal {
        return Some(Illegal);
      }
      ApplyLegal(m);
      return None;
    }
  }

  /**
   * The placement loop of CreateChessboard (lines 193-210) onto fresh bitboards: a
   * digit skips squares, '/' starts the next rank down, a piece letter sets the
   * square's bit in that piece's bitboard with `|=`. The square under the cursor is
   * always still empty, so setting its bit puts the piece there; a letter outside
   * "KQRBNPkqrbnp" or a square off the board is a malformed placement.
   */
  method ReadPlacement(text: string) returns (r: Result<array<bv64>, FenError>)
    ensures r.Ok? <==> Placement(text).Ok?
    ensures r.Err? ==> Placement(text) == Err(r.error)
    ensures r.Ok? ==>
      fresh(r.value) && r.value.Length == 13 && WellFormed(r.value[..]) && Placement(text).value == View(r.value[..])
  {
    var bits := new bv64[13](k => 0);
    assert bits[..] == NoBoards;
    ViewEmpty();
    ghost var s: Squares := EmptySquares();
    HoldsOpen(bits[..], s);
    var row, col := 7, 0;
    for i := 0 to |text|
      invariant bits.Length == 13 && Holds(bits[..], s, 2)
      invariant Run(text[i..], s, Cursor(row, col)) == Run(text, EmptySquares(), Cursor(7, 0))
      invariant Unread(s, Cursor(row, col))
    {
      var c := text[i];
      assert text[i..] == [c] + text[i + 1..];
      ghost var step := PlaceChar(s, Cursor(row, col), c);
      if step.Ok? {
        PlaceCharUnread(s, Cursor(row, col), c);
      }
      if '0' < c < '9' {
        col := col + (c as int - '0' as int);
      } else if c == '/' {
        row, col := row - 1, 0;
      } else {
        var placed;
        placed, s := PlacePiece(bits, s, row, col, c);
        if !placed {
          return Err(BadPlacement);
        }
        col := col + 1;
      }
      assert step == Ok((s, Cursor(row, col)));
    }
    assert text[|text|..] == [];
    HoldsOpen(bits[..], s);
    return Ok(bits);
  }

  /** A piece letter of the placement on the cursor's square (lines 205-208): false for another character or off the board. */
  method PlacePiece(bits: array<bv64>, ghost s: Squares, row: int, col: int, c: char) returns (placed: bool, ghost s': Squares)
    requires bits.Length == 13 && Holds(bits[..], s, 2) && Unread(s, Cursor(row, col))
    requires !('0' < c < '9') && c != '/'
    modifies bits
    ensures placed <==> PlaceChar(s, Cursor(row, col), c).Ok?
    ensures placed ==> PlaceChar(s, Cursor(row, col), c) == Ok((s', Cursor(row, col + 1))) && Holds(bits[..], s', 2)
  {
    PlaceCharPiece(s, Cursor(row, col), c);
    var piece := CharToPiece(c);
    var p := Pair(col, row);
    if piece.None? || !InBounds(p) {
      return false, s;
    }
    var n := PairToInt(p);
    assert !Visited(n, row, col);
    PieceCharRoundTrip(EMPTY, c);
    SetOnEmptySquare(bits, s, n, piece.value);
    placed, s' := true, Put(s, p, piece.value);
  }

  /** `bits[piece] |= 1 << n` on a square that no bitboard owns yet. */
  method SetOnEmptySquare(bits: array<bv64>, ghost s: Squares, n: nat, piece: Kind)
    requires bits.Length == 13 && Holds(bits[..], s, 2)
    requires n < 64 && s[n] == EMPTY && piece != EMPTY
    modifies bits
    ensures Holds(bits[..], s[n := piece], 2)
  {
    ghost var b := bits[..];
    HoldsOpen(b, s);
    SetOnEmpty(b, n, piece);
    bits[piece] := SetBit(bits[piece], n);
    assert bits[..] == b[piece := SetBit(b[piece], n)];
    HoldsOpen(bits[..], s[n := piece]);
  }

  /** Thirteen well-formed bitboards viewing as the board s, behind two levels of recursion on `depth`. */
  ghost predicate Holds(b: seq<bv64>, s: Squares, depth: nat) {
    if depth > 0 then Holds(b, s, depth - 1) else |b| == 13 && WellFormed(b) && View(b) == s
  }

  lemma HoldsOpen(b: seq<bv64>, s: Squares)
    ensures Holds(b, s, 2) <==> |b| == 13 && WellFormed(b) && View(b) == s
  {
    assert Holds(b, s, 2) == Holds(b, s, 1) == Holds(b, s, 0);
  }

  /** Thirteen well-formed bitboards, behind two levels of recursion on `depth`. */
  ghost predicate StoreSound(b: seq<bv64>, depth: nat) {
    if depth > 0 then StoreSound(b, depth - 1) else |b| == 13 && WellFormed(b)
  }

  /** The king search passes over squares whose bit is clear without changing its result. */
  lemma {:induction false} KingScanSkip(b: Boards, king: Kind, i: nat)
    requires WellFormed(b) && king != EMPTY && i <= 64
    requires forall j :: 0 <= j < i ==> !Bit(b[king], j)
    ensures FirstIndexOf(View(b), king, 0) == FirstIndexOf(View(b), king, i)
  {
    if i > 0 {
      KingScanSkip(b, king, i - 1);
      OccupantIff(b, i - 1, king);
    }
  }

  /** The n-th square of the scan for n = 8 * col + row. */
  lemma ScanSquareOf(col: int, row: int)
    requires 0 <= col < 8 && 0 <= row < 8
    ensures ScanSquare(8 * col + row) == Pair(col, row)
  {
  }

  lemma AppendAssociative<T>(a: seq<T>, b: seq<T>, c: seq<T>)
    ensures a + (b + c) == (a + b) + c
  {
  }
}
