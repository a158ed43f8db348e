/**
 * The attack evaluator SquareIsThreatened (pkg/chessboard/chessboard.go:278-389),
 * as the chess rules define it. byWhite names the ATTACKING side here.
 * The source's rays never advance (nextSquare is not updated, lines 301-314,
 * 355-368): when Black attacks, an empty square makes the ray loop run forever
 * (lines 300-332), and when White attacks, the colour test breaks on the empty
 * square instead (lines 358, 375). Its pawn offsets use one file twice (lines
 * 281/284, 335/338). The model walks each ray outward to the first occupied
 * square, looks at both diagonal files, and lets empty squares pass.
 */
module Attacks {
  import opened Wrappers
  import opened Coords
  import opened Pieces
  import opened Game

  /** The occupant of the first occupied square from s onward along d; EMPTY if the ray leaves the board first. */
  function FirstOccupied(b: Squares, s: Pair, d: Pair): Kind
    requires IsDirection(d)
    decreases RayMeasure(s, d)
  {
    if !InBounds(s) then EMPTY
    else if PieceAt(b, s) != EMPTY then PieceAt(b, s)
    else FirstOccupied(b, AddPair(s, d), d)
  }

  /** Some offset from t holds `kind`. */
  predicate OffsetHit(b: Squares, t: Pair, offsets: seq<Pair>, kind: Kind) {
    exists i :: 0 <= i < |offsets| && PieceAt(b, AddPair(t, offsets[i])) == kind
  }

  /** Along some direction, the first occupied square beyond t holds k1 or k2. */
  predicate SlideHit(b: Squares, t: Pair, dirs: seq<Pair>, k1: Kind, k2: Kind) {
    exists i :: 0 <= i < |dirs| && IsDirection(dirs[i]) &&
      (FirstOccupied(b, AddPair(t, dirs[i]), dirs[i]) == k1 || FirstOccupied(b, AddPair(t, dirs[i]), dirs[i]) == k2)
  }

  /** A pawn of the attacking side stands diagonally behind t (from its own point of view). */
  predicate PawnHit(b: Squares, t: Pair, byWhite: bool) {
    if byWhite then PieceAt(b, AddPair(t, Pair(-1, -1))) == WPAWN || PieceAt(b, AddPair(t, Pair(1, -1))) == WPAWN
    else PieceAt(b, AddPair(t, Pair(-1, 1))) == BPAWN || PieceAt(b, AddPair(t, Pair(1, 1))) == BPAWN
  }

  /** Square t is attacked by the side byWhite. */
  predicate Attacked(b: Squares, byWhite: bool, t: Pair) {
    PawnHit(b, t, byWhite)
    || OffsetHit(b, t, KnightMoves, OfColour(byWhite, WKNIGHT))
    || OffsetHit(b, t, KingMoves, OfColour(byWhite, WKING))
    || SlideHit(b, t, BishopSlides, OfColour(byWhite, WBISHOP), OfColour(byWhite, WQUEEN))
    || SlideHit(b, t, RookSlides, OfColour(byWhite, WROOK), OfColour(byWhite, WQUEEN))
  }

  /** The king of side `white` stands on an attacked square; a side without a king is never in check. */
  predicate InCheck(b: Squares, white: bool) {
    match KingSquare(b, white)
    case None => false
    case Some(k) => Attacked(b, !white, k)
  }

  /** The squares s, s+d, ..., s+(n-1)d are on the board and empty. */
  predicate EmptyBefore(b: Squares, s: Pair, d: Pair, n: nat) {
    forall j :: 0 <= j < n ==> InBounds(Step(s, d, j)) && PieceAt(b, Step(s, d, j)) == EMPTY
  }

  /**
   * Reference reading of a ray: if the squares s, s+d, ..., s+(n-1)d are on the
   * board and empty and s+nd is off the board or occupied, the scan returns
   * what stands on s+nd.
   */
  lemma {:induction false} FirstOccupiedAt(b: Squares, s: Pair, d: Pair, n: nat)
    requires IsDirection(d)
    requires forall j :: 0 <= j < n ==> InBounds(Step(s, d, j)) && PieceAt(b, Step(s, d, j)) == EMPTY
    requires !InBounds(Step(s, d, n)) || PieceAt(b, Step(s, d, n)) != EMPTY
    ensures FirstOccupied(b, s, d) == PieceAt(b, Step(s, d, n))
    decreases n
  {
    StepNext(s, d, 0);
    if n > 0 {
      var s' := AddPair(s, d);
      forall j | 0 <= j < n - 1
        ensures InBounds(Step(s', d, j)) && PieceAt(b, Step(s', d, j)) == EMPTY
      {
        StepNext(s, d, j);
      }
      StepNext(s, d, n - 1);
      FirstOccupiedAt(b, s', d, n - 1);
    }
  }

  /** Stepping the start of a ray back by one empty square extends the empty run by one. */
  lemma EmptyBeforeShift(b: Squares, s: Pair, d: Pair, n: nat)
    requires InBounds(s) && PieceAt(b, s) == EMPTY
    ensures EmptyBefore(b, AddPair(s, d), d, n) <==> EmptyBefore(b, s, d, n + 1)
  {
    StepNext(s, d, 0);
    forall j | 0 <= j < n
      ensures Step(AddPair(s, d), d, j) == Step(s, d, j + 1)
    {
      StepNext(s, d, j);
    }
    if EmptyBefore(b, AddPair(s, d), d, n) {
      forall j | 0 <= j < n + 1
        ensures InBounds(Step(s, d, j)) && PieceAt(b, Step(s, d, j)) == EMPTY
      {
        if j > 0 {
          assert Step(s, d, j) == Step(AddPair(s, d), d, j - 1);
        }
      }
    }
  }

  /** Conversely, a piece the scan returns stands on the ray with only empty squares before it. */
  lemma {:induction false} FirstOccupiedOnRay(b: Squares, s: Pair, d: Pair)
    requires IsDirection(d) && FirstOccupied(b, s, d) != EMPTY
    ensures exists n: nat :: InBounds(Step(s, d, n)) && PieceAt(b, Step(s, d, n)) == FirstOccupied(b, s, d) && EmptyBefore(b, s, d, n)
    decreases RayMeasure(s, d)
  {
    StepNext(s, d, 0);
    if PieceAt(b, s) == EMPTY {
      var s' := AddPair(s, d);
      FirstOccupiedOnRay(b, s', d);
      var n: nat :| InBounds(Step(s', d, n)) && PieceAt(b, Step(s', d, n)) == FirstOccupied(b, s', d) && EmptyBefore(b, s', d, n);
      StepNext(s, d, n);
      EmptyBeforeShift(b, s, d, n);
      assert InBounds(Step(s, d, n + 1)) && PieceAt(b, Step(s, d, n + 1)) == FirstOccupied(b, s, d) && EmptyBefore(b, s, d, n + 1);
    } else {
      assert InBounds(Step(s, d, 0)) && PieceAt(b, Step(s, d, 0)) == FirstOccupied(b, s, d) && EmptyBefore(b, s, d, 0);
    }
  }

  /**
   * A bishop or queen of the attacking side that sees t along a diagonal, with
   * only empty squares between, attacks t.
   */
  lemma DiagonalAttack(b: Squares, byWhite: bool, t: Pair, i: nat, n: nat)
    requires i < 4 && 1 <= n
    requires forall j :: 1 <= j < n ==> InBounds(Step(t, BishopSlides[i], j)) && PieceAt(b, Step(t, BishopSlides[i], j)) == EMPTY
    requires PieceAt(b, Step(t, BishopSlides[i], n)) in {OfColour(byWhite, WBISHOP), OfColour(byWhite, WQUEEN)}
    ensures Attacked(b, byWhite, t)
  {
    var d := BishopSlides[i];
    var s := AddPair(t, d);
    forall j | 0 <= j < n - 1
      ensures InBounds(Step(s, d, j)) && PieceAt(b, Step(s, d, j)) == EMPTY
    {
      StepNext(t, d, j);
    }
    StepNext(t, d, n - 1);
    FirstOccupiedAt(b, s, d, n - 1);
    assert SlideHit(b, t, BishopSlides, OfColour(byWhite, WBISHOP), OfColour(byWhite, WQUEEN));
  }

  /** A rook or queen of the attacking side that sees t along a rank or file, with only empty squares between, attacks t. */
  lemma OrthogonalAttack(b: Squares, byWhite: bool, t: Pair, i: nat, n: nat)
    requires i < 4 && 1 <= n
    requires forall j :: 1 <= j < n ==> InBounds(Step(t, RookSlides[i], j)) && PieceAt(b, Step(t, RookSlides[i], j)) == EMPTY
    requires PieceAt(b, Step(t, RookSlides[i], n)) in {OfColour(byWhite, WROOK), OfColour(byWhite, WQUEEN)}
    ensures Attacked(b, byWhite, t)
  {
    var d := RookSlides[i];
    var s := AddPair(t, d);
    forall j | 0 <= j < n - 1
      ensures InBounds(Step(s, d, j)) && PieceAt(b, Step(s, d, j)) == EMPTY
    {
      StepNext(t, d, j);
    }
    StepNext(t, d, n - 1);
    FirstOccupiedAt(b, s, d, n - 1);
    assert SlideHit(b, t, RookSlides, OfColour(byWhite, WROOK), OfColour(byWhite, WQUEEN));
  }

  /**
   * Every slide hit is a piece of one of the two kinds standing on one of the
   * directions from t, with only empty squares between.
   */
  lemma SlideHitWitness(b: Squares, t: Pair, dirs: seq<Pair>, k1: Kind, k2: Kind)
    requires SlideHit(b, t, dirs, k1, k2) && k1 != EMPTY && k2 != EMPTY
    ensures exists i, n: nat :: 0 <= i < |dirs| && IsDirection(dirs[i]) && SeesAlong(b, t, dirs[i], n, k1, k2)
  {
    var i :| 0 <= i < |dirs| && IsDirection(dirs[i]) &&
      (FirstOccupied(b, AddPair(t, dirs[i]), dirs[i]) == k1 || FirstOccupied(b, AddPair(t, dirs[i]), dirs[i]) == k2);
    var n := RayWitness(b, t, dirs[i], k1, k2);
    assert SeesAlong(b, t, dirs[i], n, k1, k2);
  }

  /** A piece of kind k1 or k2 stands on t+nd (n >= 1) and the squares between are empty. */
  predicate SeesAlong(b: Squares, t: Pair, d: Pair, n: nat, k1: Kind, k2: Kind) {
    1 <= n && InBounds(Step(t, d, n)) && (PieceAt(b, Step(t, d, n)) == k1 || PieceAt(b, Step(t, d, n)) == k2)
    && forall j :: 1 <= j < n ==> PieceAt(b, Step(t, d, j)) == EMPTY
  }

  lemma RayWitness(b: Squares, t: Pair, d: Pair, k1: Kind, k2: Kind) returns (n: nat)
    requires IsDirection(d) && k1 != EMPTY && k2 != EMPTY
    requires FirstOccupied(b, AddPair(t, d), d) == k1 || FirstOccupied(b, AddPair(t, d), d) == k2
    ensures SeesAlong(b, t, d, n, k1, k2)
  {
    var s := AddPair(t, d);
    FirstOccupiedOnRay(b, s, d);
    var m: nat :| InBounds(Step(s, d, m)) && PieceAt(b, Step(s, d, m)) == FirstOccupied(b, s, d) && EmptyBefore(b, s, d, m);
    StepNext(t, d, m);
    forall j | 1 <= j < m + 1
      ensures PieceAt(b, Step(t, d, j)) == EMPTY
    {
      StepNext(t, d, j - 1);
    }
    n := m + 1;
  }
  // ---- what side `white` sees of its own pieces ----

  /** A piece of side `white` other than its king. */
  predicate OwnNonKing(k: Kind, white: bool) {
    k != EMPTY && IsWhite(k) == white && !IsKing(k)
  }

  /**
   * Two boards look the same to the opponent of `white`: every square is occupied
   * in both or in neither, and where they differ both hold a piece of `white`
   * other than its king.
   */
  ghost predicate SameToOpponent(b1: Squares, b2: Squares, white: bool) {
    forall q :: PieceAt(b1, q) == PieceAt(b2, q) || (OwnNonKing(PieceAt(b1, q), white) && OwnNonKing(PieceAt(b2, q), white))
  }

  /** A ray scan finds the same opponent piece, king or empty result on both boards. */
  lemma {:induction false} FirstOccupiedFrame(b1: Squares, b2: Squares, white: bool, s: Pair, d: Pair, k: Kind)
    requires SameToOpponent(b1, b2, white) && IsDirection(d) && !OwnNonKing(k, white)
    ensures FirstOccupied(b1, s, d) == k <==> FirstOccupied(b2, s, d) == k
    decreases RayMeasure(s, d)
  {
    if InBounds(s) && PieceAt(b1, s) == EMPTY {
      assert PieceAt(b2, s) == EMPTY;
      RayMeasureDecreases(s, d);
      FirstOccupiedFrame(b1, b2, white, AddPair(s, d), d, k);
    }
  }

  /** The opponent of `white` attacks the same squares on both boards. */
  lemma AttackedFrame(b1: Squares, b2: Squares, white: bool, t: Pair)
    requires SameToOpponent(b1, b2, white)
    ensures Attacked(b1, !white, t) <==> Attacked(b2, !white, t)
  {
    var bishop, rook, queen := OfColour(!white, WBISHOP), OfColour(!white, WROOK), OfColour(!white, WQUEEN);
    forall i | 0 <= i < 4
      ensures FirstOccupied(b1, AddPair(t, BishopSlides[i]), BishopSlides[i]) == bishop <==> FirstOccupied(b2, AddPair(t, BishopSlides[i]), BishopSlides[i]) == bishop
      ensures FirstOccupied(b1, AddPair(t, BishopSlides[i]), BishopSlides[i]) == queen <==> FirstOccupied(b2, AddPair(t, BishopSlides[i]), BishopSlides[i]) == queen
      ensures FirstOccupied(b1, AddPair(t, RookSlides[i]), RookSlides[i]) == rook <==> FirstOccupied(b2, AddPair(t, RookSlides[i]), RookSlides[i]) == rook
      ensures FirstOccupied(b1, AddPair(t, RookSlides[i]), RookSlides[i]) == queen <==> FirstOccupied(b2, AddPair(t, RookSlides[i]), RookSlides[i]) == queen
    {
      FirstOccupiedFrame(b1, b2, white, AddPair(t, BishopSlides[i]), BishopSlides[i], bishop);
      FirstOccupiedFrame(b1, b2, white, AddPair(t, BishopSlides[i]), BishopSlides[i], queen);
      FirstOccupiedFrame(b1, b2, white, AddPair(t, RookSlides[i]), RookSlides[i], rook);
      FirstOccupiedFrame(b1, b2, white, AddPair(t, RookSlides[i]), RookSlides[i], queen);
    }
  }

  /** Side `white` has its king on the same square of both boards, so it is in check on both or on neither. */
  lemma InCheckFrame(b1: Squares, b2: Squares, white: bool)
    requires SameToOpponent(b1, b2, white)
    ensures KingSquare(b1, white) == KingSquare(b2, white)
    ensures InCheck(b1, white) <==> InCheck(b2, white)
  {
    var king := OfColour(white, WKING);
    assert forall q :: PieceAt(b1, q) == king <==> PieceAt(b2, q) == king;
    var r1, r2 := KingSquare(b1, white), KingSquare(b2, white);
    if r1.Some? && r2.Some? && PairToInt(r1.value) == PairToInt(r2.value) {
      PairToIntInjective(r1.value, r2.value);
    }
    if r1.Some? {
      AttackedFrame(b1, b2, white, r1.value);
    }
  }
}
