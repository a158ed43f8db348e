/**
 * The board store: thirteen 64-bit bitboards indexed by piece kind, slot 0 unused
 * (pkg/chessboard/chessboard.go:136-149, 261-276, 391-402, 517-527;
 * chessboard.go:72-87, 179-194, 311-318). Bit n of bitboard k is set when the
 * square of index n holds a piece of kind k. This module states, on sequence
 * values, what erasing, placing and looking up a piece do; the Engine module's
 * Chessboard class performs the same steps on an array.
 */
module Bitboards {
  import opened Wrappers
  import opened Coords
  import opened Pieces

  type Boards = s: seq<bv64> | |s| == 13 witness [0, 0, 0, 0, 0, 0, 0, 0, 0, 0, 0, 0, 0]

  const NoBoards: Boards := [0, 0, 0, 0, 0, 0, 0, 0, 0, 0, 0, 0, 0]

  /*
   * The uint64 operations of the store. Each primitive is written once, at depth 0,
   * and reached through one level of recursion on `depth`: the solver unfolds a
   * call only one level, so proofs above this block see Idx, Bit, Clear and
   * SetBit as operations described by the lemmas below instead of expanding
   * them into 64-bit circuits. The depth-0 lemmas are the only proofs that look
   * at the bits.
   */

  function IdxAt(n: nat, depth: nat): (r: bv64)
    requires n < 64
    ensures r < 64
    decreases depth
  {
    if depth == 0 then (n as bv7) as bv64 else IdxAt(n, depth - 1)
  }

  /** `uint64(1 << i)`. */
  function MaskAt(i: bv64, depth: nat): bv64
    requires i < 64
    decreases depth
  {
    if depth == 0 then 1 << i else MaskAt(i, depth - 1)
  }

  /** `bb & uint64(1 << i)`. */
  function MaskedAt(bb: bv64, i: bv64, depth: nat): bv64
    requires i < 64
    decreases depth
  {
    if depth == 0 then bb & (1 << i) else MaskedAt(bb, i, depth - 1)
  }

  /** `bb & (^uint64(0) ^ uint64(1 << i))`, the mask of erasePiece. */
  function ClearAt(bb: bv64, i: bv64, depth: nat): bv64
    requires i < 64
    decreases depth
  {
    if depth == 0 then bb & (!0 ^ (1 << i)) else ClearAt(bb, i, depth - 1)
  }

  /** `bb | uint64(1 << i)`, the set of putPiece and of the FEN reader. */
  function SetAt(bb: bv64, i: bv64, depth: nat): bv64
    requires i < 64
    decreases depth
  {
    if depth == 0 then bb | (1 << i) else SetAt(bb, i, depth - 1)
  }

  /** A square index as a shift amount. */
  function Idx(n: nat): (r: bv64)
    requires n < 64
    ensures r < 64
  {
    IdxAt(n, 1)
  }

  /** uint64(1 << n). */
  function Mask(n: nat): bv64
    requires n < 64
  {
    MaskAt(Idx(n), 1)
  }

  /** Bit n of a bitboard is set. */
  predicate Bit(bb: bv64, n: nat)
    requires n < 64
  {
    MaskedAt(bb, Idx(n), 1) != 0
  }

  /** Bit n cleared. */
  function Clear(bb: bv64, n: nat): bv64
    requires n < 64
  {
    ClearAt(bb, Idx(n), 1)
  }

  /** Bit n set. */
  function SetBit(bb: bv64, n: nat): bv64
    requires n < 64
  {
    SetAt(bb, Idx(n), 1)
  }

  /**
   * The bit test of getPiece as written, `bb & (1 << n) == 1`
   * (pkg/chessboard/chessboard.go:522; chessboard.go:313): it holds only for
   * square 0, so every other occupied square reads as empty.
   */
  predicate BitAsWritten(bb: bv64, n: nat)
    requires n < 64
  {
    bb & Mask(n) == 1
  }

  lemma BitAsWrittenMisses()
    ensures Bit(SetBit(0, 4), 4) && !BitAsWritten(SetBit(0, 4), 4)
  {
  }

  /**
   * The king search of GetKingPosition as written, `1 == (1 << i) | bb`
   * (pkg/chessboard/chessboard.go:397): an OR where a bit test was meant.
   */
  predicate KingTestAsWritten(bb: bv64, n: nat)
    requires n < 64
  {
    (Mask(n) | bb) == 1
  }

  lemma KingTestAsWrittenMisses()
    ensures Bit(SetBit(0, 4), 4) && !KingTestAsWritten(SetBit(0, 4), 4)
  {
  }

  // ---- bit-level facts ----

  lemma RawClearSame(b: bv64, i: bv64)
    requires i < 64
    ensures (b & (!0 ^ (1 << i))) & (1 << i) == 0
  {
  }

  lemma RawClearOther(b: bv64, i: bv64, j: bv64)
    requires i < 64 && j < 64 && i != j
    ensures (b & (!0 ^ (1 << i))) & (1 << j) == b & (1 << j)
  {
  }

  lemma RawSetSame(b: bv64, i: bv64)
    requires i < 64
    ensures (b | (1 << i)) & (1 << i) == 1 << i
  {
  }

  lemma RawSetOther(b: bv64, i: bv64, j: bv64)
    requires i < 64 && j < 64 && i != j
    ensures (b | (1 << i)) & (1 << j) == b & (1 << j)
  {
  }

  lemma RawMask(i: bv64)
    requires i < 64
    ensures (1 as bv64) << i != 0
  {
  }

  lemma ClearSame0(b: bv64, i: bv64)
    requires i < 64
    ensures MaskedAt(ClearAt(b, i, 0), i, 0) == 0
  {
    RawClearSame(b, i);
  }

  lemma ClearOther0(b: bv64, i: bv64, j: bv64)
    requires i < 64 && j < 64 && i != j
    ensures MaskedAt(ClearAt(b, i, 0), j, 0) == MaskedAt(b, j, 0)
  {
    RawClearOther(b, i, j);
  }

  lemma SetSame0(b: bv64, i: bv64)
    requires i < 64
    ensures MaskedAt(SetAt(b, i, 0), i, 0) == MaskAt(i, 0)
  {
    RawSetSame(b, i);
  }

  lemma SetOther0(b: bv64, i: bv64, j: bv64)
    requires i < 64 && j < 64 && i != j
    ensures MaskedAt(SetAt(b, i, 0), j, 0) == MaskedAt(b, j, 0)
  {
    RawSetOther(b, i, j);
  }

  lemma Mask0(i: bv64)
    requires i < 64
    ensures MaskAt(i, 0) != 0
  {
    RawMask(i);
  }

  lemma Zero0(i: bv64)
    requires i < 64
    ensures MaskedAt(0, i, 0) == 0 && ClearAt(0, i, 0) == 0
  {
  }

  lemma Bv7RoundTrip(n: nat)
    requires n < 64
    ensures (n as bv7) as int == n
  {
  }

  lemma IdxInjective(n: nat, m: nat)
    requires n < 64 && m < 64 && n != m
    ensures Idx(n) != Idx(m)
  {
    assert IdxAt(n, 1) == IdxAt(n, 0);
    assert IdxAt(m, 1) == IdxAt(m, 0);
    Bv7RoundTrip(n);
    Bv7RoundTrip(m);
    assert (n as bv7) != (m as bv7);
  }

  /** Clearing bit n clears bit n and nothing else. */
  lemma BitClear(b: bv64, n: nat, m: nat)
    requires n < 64 && m < 64
    ensures Bit(Clear(b, n), m) <==> (m != n && Bit(b, m))
  {
    if n == m {
      ClearSame0(b, Idx(n));
    } else {
      IdxInjective(n, m);
      ClearOther0(b, Idx(n), Idx(m));
    }
  }

  /** Setting bit n sets bit n and nothing else. */
  lemma BitSet(b: bv64, n: nat, m: nat)
    requires n < 64 && m < 64
    ensures Bit(SetBit(b, n), m) <==> (m == n || Bit(b, m))
  {
    if n == m {
      SetSame0(b, Idx(n));
      Mask0(Idx(n));
    } else {
      IdxInjective(n, m);
      SetOther0(b, Idx(n), Idx(m));
    }
  }

  /** The empty bitboard has no bit set, and clearing a bit of it leaves it empty. */
  lemma BitZero(n: nat)
    requires n < 64
    ensures !Bit(0, n) && Clear(0, n) == 0
  {
    Zero0(Idx(n));
  }

  // ---- the store ----

  /** At most one bitboard owns a square. */
  ghost predicate Disjoint(b: Boards) {
    forall k1, k2, n :: 0 <= k1 < k2 < 13 && 0 <= n < 64 ==> !(Bit(b[k1], n) && Bit(b[k2], n))
  }

  /** The store's invariant: slot 0 is unused and no square has two owners. */
  ghost predicate WellFormed(b: Boards) {
    b[0] == 0 && Disjoint(b)
  }

  /** erasePiece on values: bit n cleared in all thirteen bitboards. */
  function Cleared(b: Boards, n: nat): Boards
    requires n < 64
  {
    seq(13, k requires 0 <= k < 13 => Clear(b[k], n))
  }

  /** putPiece on values: erase square n, then set bit n in bitboard `piece`. */
  function Placed(b: Boards, n: nat, piece: Kind): Boards
    requires n < 64
  {
    var c := Cleared(b, n);
    c[piece := SetBit(c[piece], n)]
  }

  /** After erasePiece no bitboard holds square n, and every other square's bits are unchanged. */
  lemma ClearedBits(b: Boards, n: nat, k: nat, m: nat)
    requires n < 64 && k < 13 && m < 64
    ensures Bit(Cleared(b, n)[k], m) <==> (m != n && Bit(b[k], m))
  {
    assert Cleared(b, n)[k] == Clear(b[k], n);
    BitClear(b[k], n, m);
  }

  lemma PlacedAt(b: Boards, n: nat, piece: Kind, k: nat)
    requires n < 64 && k < 13
    ensures Placed(b, n, piece)[k] == if k == piece then SetBit(Cleared(b, n)[k], n) else Cleared(b, n)[k]
  {
  }

  lemma PlacedBitsOwner(b: Boards, n: nat, piece: Kind, m: nat)
    requires n < 64 && m < 64
    ensures Bit(Placed(b, n, piece)[piece], m) <==> (m == n || Bit(b[piece], m))
  {
    PlacedAt(b, n, piece, piece);
    BitSet(Cleared(b, n)[piece], n, m);
    ClearedBits(b, n, piece, m);
  }

  lemma PlacedBitsOther(b: Boards, n: nat, piece: Kind, k: nat, m: nat)
    requires n < 64 && k < 13 && m < 64 && k != piece
    ensures Bit(Placed(b, n, piece)[k], m) <==> (m != n && Bit(b[k], m))
  {
    PlacedAt(b, n, piece, k);
    ClearedBits(b, n, k, m);
  }

  /**
   * After putPiece the square n is set in bitboard `piece` and clear in every
   * other bitboard, and every other square's bits are unchanged.
   */
  lemma PlacedBits(b: Boards, n: nat, piece: Kind, k: nat, m: nat)
    requires n < 64 && k < 13 && m < 64
    ensures Bit(Placed(b, n, piece)[k], m) <==> (if m == n then k == piece else Bit(b[k], m))
  {
    if k == piece {
      PlacedBitsOwner(b, n, piece, m);
    } else {
      PlacedBitsOther(b, n, piece, k, m);
    }
  }

  /** erasePiece keeps the store well formed. */
  lemma ClearedWellFormed(b: Boards, n: nat)
    requires n < 64 && WellFormed(b)
    ensures WellFormed(Cleared(b, n))
  {
    var c := Cleared(b, n);
    assert c[0] == 0 by { BitZero(n); }
    forall k1, k2, m | 0 <= k1 < k2 < 13 && 0 <= m < 64
      ensures !(Bit(c[k1], m) && Bit(c[k2], m))
    {
      ClearedBits(b, n, k1, m);
      ClearedBits(b, n, k2, m);
    }
  }

  /** putPiece of a real piece keeps the store well formed. */
  lemma PlacedWellFormed(b: Boards, n: nat, piece: Kind)
    requires n < 64 && WellFormed(b) && piece != EMPTY
    ensures WellFormed(Placed(b, n, piece))
  {
    ClearedWellFormed(b, n);
    var c := Placed(b, n, piece);
    forall k1, k2, m | 0 <= k1 < k2 < 13 && 0 <= m < 64
      ensures !(Bit(c[k1], m) && Bit(c[k2], m))
    {
      PlacedBits(b, n, piece, k1, m);
      PlacedBits(b, n, piece, k2, m);
    }
  }

  /** The first bitboard at or after k that owns square n (the scan of getPiece); 0 if none. */
  function FirstOwner(b: Boards, n: nat, k: nat): Kind
    requires n < 64 && k <= 13
    decreases 13 - k
  {
    if k == 13 then EMPTY
    else if Bit(b[k], n) then k
    else FirstOwner(b, n, k + 1)
  }

  /** Passing over bitboards that do not own square n leaves the scan's result unchanged. */
  lemma {:induction false} FirstOwnerSkip(b: Boards, n: nat, k: nat)
    requires n < 64 && k <= 13
    requires forall j :: 0 <= j < k ==> !Bit(b[j], n)
    ensures FirstOwner(b, n, 0) == FirstOwner(b, n, k)
  {
    if k > 0 {
      FirstOwnerSkip(b, n, k - 1);
    }
  }

  /** The piece kind on square n, or 0 for an empty square. */
  function Occupant(b: Boards, n: nat): Kind
    requires n < 64
  {
    FirstOwner(b, n, 0)
  }

  /** The scan returns a kind only when that kind's bitboard owns the square, and none before it does. */
  lemma {:induction false} FirstOwnerSound(b: Boards, n: nat, k: nat)
    requires n < 64 && k <= 13
    decreases 13 - k
    ensures var r := FirstOwner(b, n, k);
      (r != EMPTY ==> k <= r && Bit(b[r], n) && forall j :: k <= j < r ==> !Bit(b[j], n))
    ensures FirstOwner(b, n, k) == EMPTY ==> forall j :: k <= j < 13 && j != 0 ==> (Bit(b[j], n) ==> Bit(b[0], n) && k == 0)
  {
    if k < 13 && !Bit(b[k], n) {
      FirstOwnerSound(b, n, k + 1);
    }
  }

  /** The scan depends only on the bits at square n. */
  lemma {:induction false} FirstOwnerFrame(b: Boards, c: Boards, n: nat, m: nat, k: nat)
    requires n < 64 && m < 64 && k <= 13
    requires forall j :: k <= j < 13 ==> Bit(b[j], n) == Bit(c[j], m)
    decreases 13 - k
    ensures FirstOwner(b, n, k) == FirstOwner(c, m, k)
  {
    if k < 13 {
      FirstOwnerFrame(b, c, n, m, k + 1);
    }
  }

  /** A square owned by exactly one bitboard p (p at or after k) is found as p. */
  lemma {:induction false} FirstOwnerUnique(b: Boards, n: nat, k: nat, p: Kind)
    requires n < 64 && k <= p < 13 && Bit(b[p], n)
    requires forall j :: k <= j < 13 && j != p ==> !Bit(b[j], n)
    decreases 13 - k
    ensures FirstOwner(b, n, k) == p
  {
    if k < p {
      FirstOwnerUnique(b, n, k + 1, p);
    }
  }

  lemma DisjointAt(b: Boards, j: nat, k: nat, n: nat)
    requires Disjoint(b) && j < 13 && k < 13 && j != k && n < 64
    ensures !(Bit(b[j], n) && Bit(b[k], n))
  {
    if j > k {
      assert !(Bit(b[k], n) && Bit(b[j], n));
    }
  }

  /** In a disjoint store, square n holds kind k exactly when bitboard k owns it. */
  lemma OccupantIff(b: Boards, n: nat, k: Kind)
    requires n < 64 && Disjoint(b) && k != EMPTY
    ensures Occupant(b, n) == k <==> Bit(b[k], n)
  {
    FirstOwnerSound(b, n, 0);
    if Bit(b[k], n) {
      forall j | 0 <= j < 13 && j != k
        ensures !Bit(b[j], n)
      {
        DisjointAt(b, j, k, n);
      }
      FirstOwnerUnique(b, n, 0, k);
    }
  }

  /** In a well-formed store, square n is empty exactly when no bitboard 1..12 owns it. */
  lemma OccupantEmptyIff(b: Boards, n: nat)
    requires n < 64 && WellFormed(b)
    ensures Occupant(b, n) == EMPTY <==> forall k :: 1 <= k < 13 ==> !Bit(b[k], n)
  {
    FirstOwnerSound(b, n, 0);
    BitZero(n);
  }

  /** After erasePiece(n) square n is empty and every other square keeps its occupant. */
  lemma OccupantCleared(b: Boards, n: nat, m: nat)
    requires n < 64 && m < 64
    ensures Occupant(Cleared(b, n), m) == if m == n then EMPTY else Occupant(b, m)
  {
    var c := Cleared(b, n);
    if m == n {
      forall j | 0 <= j < 13 ensures !Bit(c[j], n) { ClearedBits(b, n, j, n); }
      FirstOwnerSound(c, n, 0);
    } else {
      forall j | 0 <= j < 13 ensures Bit(c[j], m) == Bit(b[j], m) { ClearedBits(b, n, j, m); }
      FirstOwnerFrame(c, b, m, m, 0);
    }
  }

  /** After putPiece(n, p) square n holds p and every other square keeps its occupant. */
  lemma OccupantPlaced(b: Boards, n: nat, piece: Kind, m: nat)
    requires n < 64 && m < 64
    ensures Occupant(Placed(b, n, piece), m) == if m == n then piece else Occupant(b, m)
  {
    var c := Placed(b, n, piece);
    if m == n {
      forall j | 0 <= j < 13 ensures Bit(c[j], n) == (j == piece) { PlacedBits(b, n, piece, j, n); }
      FirstOwnerUnique(c, n, 0, piece);
    } else {
      forall j | 0 <= j < 13 ensures Bit(c[j], m) == Bit(b[j], m) { PlacedBits(b, n, piece, j, m); }
      FirstOwnerFrame(c, b, m, m, 0);
    }
  }

  /**
   * The store read square by square: entry n is the kind getPiece finds on the
   * square of index n. The rules are stated on this 64-entry view.
   */
  function View(b: Boards): (v: seq<Kind>)
    ensures |v| == 64 && forall n :: 0 <= n < 64 ==> v[n] == Occupant(b, n)
  {
    seq(64, n requires 0 <= n < 64 => Occupant(b, n))
  }

  /** erasePiece empties one entry of the view. */
  lemma ViewCleared(b: Boards, n: nat)
    requires n < 64
    ensures View(Cleared(b, n)) == View(b)[n := EMPTY]
  {
    forall m | 0 <= m < 64 ensures View(Cleared(b, n))[m] == View(b)[n := EMPTY][m] {
      OccupantCleared(b, n, m);
    }
  }

  /** putPiece sets one entry of the view. */
  lemma ViewPlaced(b: Boards, n: nat, piece: Kind)
    requires n < 64
    ensures View(Placed(b, n, piece)) == View(b)[n := piece]
  {
    forall m | 0 <= m < 64 ensures View(Placed(b, n, piece))[m] == View(b)[n := piece][m] {
      OccupantPlaced(b, n, piece, m);
    }
  }

  /** The bits after setting bit n of bitboard `piece` on a square no bitboard owns. */
  lemma SetBits(b: Boards, n: nat, piece: Kind, k: nat, m: nat)
    requires n < 64 && k < 13 && m < 64
    requires k != piece ==> !Bit(b[k], n)
    ensures Bit(b[piece := SetBit(b[piece], n)][k], m) <==> (if m == n then k == piece else Bit(b[k], m))
  {
    var c := b[piece := SetBit(b[piece], n)];
    if k == piece {
      assert c[k] == SetBit(b[piece], n);
      BitSet(b[piece], n, m);
    } else {
      assert c[k] == b[k];
    }
  }

  /** Before the FEN reader sets a bit, no bitboard owns the square. */
  lemma EmptyNoOwner(b: Boards, n: nat)
    requires n < 64 && WellFormed(b) && View(b)[n] == EMPTY
    ensures forall j :: 0 <= j < 13 ==> !Bit(b[j], n)
  {
    OccupantEmptyIff(b, n);
    BitZero(n);
  }

  lemma SetOnEmptyView(b: Boards, n: nat, piece: Kind)
    requires n < 64 && WellFormed(b) && View(b)[n] == EMPTY && piece != EMPTY
    ensures View(b[piece := SetBit(b[piece], n)]) == View(b)[n := piece]
  {
    var c := b[piece := SetBit(b[piece], n)];
    EmptyNoOwner(b, n);
    forall m | 0 <= m < 64 ensures View(c)[m] == View(b)[n := piece][m] {
      if m == n {
        forall j | 0 <= j < 13 ensures Bit(c[j], n) == (j == piece) { SetBits(b, n, piece, j, n); }
        FirstOwnerUnique(c, n, 0, piece);
      } else {
        forall j | 0 <= j < 13 ensures Bit(c[j], m) == Bit(b[j], m) { SetBits(b, n, piece, j, m); }
        FirstOwnerFrame(c, b, m, m, 0);
      }
    }
  }

  lemma SetOnEmptyWellFormed(b: Boards, n: nat, piece: Kind)
    requires n < 64 && WellFormed(b) && View(b)[n] == EMPTY && piece != EMPTY
    ensures WellFormed(b[piece := SetBit(b[piece], n)])
  {
    var c := b[piece := SetBit(b[piece], n)];
    EmptyNoOwner(b, n);
    forall k1, k2, m | 0 <= k1 < k2 < 13 && 0 <= m < 64
      ensures !(Bit(c[k1], m) && Bit(c[k2], m))
    {
      SetBits(b, n, piece, k1, m);
      SetBits(b, n, piece, k2, m);
    }
  }

  /**
   * Setting the bit of an empty square of a well-formed store, as the FEN reader
   * does with `|=`, puts the piece on that square of the view and keeps the
   * store well formed.
   */
  lemma SetOnEmpty(b: Boards, n: nat, piece: Kind)
    requires n < 64 && WellFormed(b) && View(b)[n] == EMPTY && piece != EMPTY
    ensures var c := b[piece := SetBit(b[piece], n)];
      View(c) == View(b)[n := piece] && WellFormed(c)
  {
    SetOnEmptyView(b, n, piece);
    SetOnEmptyWellFormed(b, n, piece);
  }

  /** The empty store views as the empty board. */
  lemma ViewEmpty()
    ensures View(NoBoards) == seq(64, n => EMPTY)
    ensures WellFormed(NoBoards)
  {
    forall n | 0 <= n < 64 ensures Occupant(NoBoards, n) == EMPTY {
      forall k | 0 <= k < 13 ensures !Bit(NoBoards[k], n) { BitZero(n); }
      FirstOwnerSound(NoBoards, n, 0);
    }
    forall k1, k2, n | 0 <= k1 < k2 < 13 && 0 <= n < 64 ensures !(Bit(NoBoards[k1], n) && Bit(NoBoards[k2], n)) {
      BitZero(n);
    }
  }
}
