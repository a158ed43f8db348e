/**
 * The position reader CreateChessboard (pkg/chessboard/chessboard.go:187-255) and the
 * draft's CreateChessgame (chessboard.go:105-173), on the six space-separated fields
 * of Forsyth-Edwards Notation (PGN Standard, section 16.1): placement, side to move,
 * castling rights, en-passant target, halfmove clock and fullmove number.
 *
 * Corrections against the code as written:
 *  - CreateChessboard splits the constant initialFEN instead of its argument (line 190);
 *    the model reads its argument;
 *  - the placement starts at row 0 and '/' goes to row + 1 (lines 189, 200-204), which
 *    puts the first field rank, rank 8, on row 0 while every other part of the program
 *    keeps White on rows 0-1; the model starts at row 7 and '/' goes to row - 1;
 *  - a letter outside "KQRBNPkqrbnp" sets a bit of the unused bitboard 0 (line 207);
 *    a rank that runs past the eighth square lands on the index 8 * row + col, which for
 *    "44k" is the first square of the next rank; an index of 64 or more shifts the bit
 *    out of the word and a negative index panics (lines 205-208); the column is an int8
 *    and wraps modulo 256 (line 196), so thirty-two '8's and then "3k" put the king on
 *    the fourth file; the model reports all of these as a malformed placement;
 *  - the en-passant square is read from its second and third characters (lines 235-236),
 *    one past the end of a two-letter square; the model reads the square name;
 *  - a malformed number panics (lines 241-243, 248-250); the model returns an error.
 * Fields after the sixth are ignored, as in the source. The placement writer and the
 * field writers below are the partner of the reader: reading what they write gives
 * the position back.
 */
module Fen {
  import opened Wrappers
  import opened Coords
  import opened Pieces
  import opened Game

  datatype FenError = MissingField | BadPlacement | BadEnPassant | BadNumber

  const InitialFen := "rnbqkbnr/pppppppp/8/8/8/8/PPPPPPPP/RNBQKBNR w KQkq - 0 1"

  // ---- fields: strings.Split ----

  /** The first occurrence of c in s. */
  function IndexOf(s: string, c: char): (k: nat)
    requires c in s
    ensures k < |s| && s[k] == c && c !in s[..k]
  {
    if s[0] == c then 0
    else
      var k := 1 + IndexOf(s[1..], c);
      assert s[..k] == [s[0]] + s[1..][..k - 1];
      k
  }

  /** strings.Split: the pieces between separators, empty pieces included. */
  function Split(s: string, sep: char): (r: seq<string>)
    ensures |r| >= 1 && forall i :: 0 <= i < |r| ==> sep !in r[i]
    decreases |s|
  {
    if sep in s then
      var k := IndexOf(s, sep);
      [s[..k]] + Split(s[k + 1..], sep)
    else [s]
  }

  /** strings.Join, the partner of Split. */
  function Join(fields: seq<string>, sep: char): string
    requires |fields| >= 1
  {
    if |fields| == 1 then fields[0] else fields[0] + [sep] + Join(fields[1..], sep)
  }

  /** Splitting a separator-free field, the separator and more text: the field, then the pieces of the rest. */
  lemma SplitAfterField(f: string, sep: char, rest: string)
    requires sep !in f
    ensures Split(f + [sep] + rest, sep) == [f] + Split(rest, sep)
  {
    var s := f + [sep] + rest;
    assert s[|f|] == sep;
    var k := IndexOf(s, sep);
    assert k == |f|;
    assert s[..k] == f;
    assert s[k + 1..] == rest;
  }

  /** Splitting a joined list of separator-free fields gives the fields back. */
  lemma {:induction false} SplitJoin(fields: seq<string>, sep: char)
    requires |fields| >= 1 && forall i :: 0 <= i < |fields| ==> sep !in fields[i]
    ensures Split(Join(fields, sep), sep) == fields
    decreases |fields|
  {
    if |fields| > 1 {
      var f, tail := fields[0], fields[1..];
      var rest := Join(tail, sep);
      assert Join(fields, sep) == f + [sep] + rest;
      SplitAfterField(f, sep, rest);
      SplitJoin(tail, sep);
      assert [f] + tail == fields;
    }
  }

  /** Joining the pieces of a split gives the string back. */
  lemma {:induction false} JoinSplit(s: string, sep: char)
    ensures Join(Split(s, sep), sep) == s
    decreases |s|
  {
    if sep in s {
      var k := IndexOf(s, sep);
      var rest := s[k + 1..];
      var t := Split(rest, sep);
      var fs := [s[..k]] + t;
      assert Split(s, sep) == fs;
      assert fs[0] == s[..k] && fs[1..] == t;
      JoinSplit(rest, sep);
      assert Join(fs, sep) == s[..k] + [sep] + rest;
      assert s == s[..k] + [sep] + rest;
    }
  }

  // ---- field 1: placement ----

  /** The reader's position in the placement field. */
  datatype Cursor = Cursor(row: int, col: int)

  /**
   * One character of the placement field (lines 193-210): a digit 1-8 skips that many
   * squares, '/' goes to the start of the next rank down, a piece letter puts the
   * piece on the cursor's square and moves one square right.
   */
  function PlaceChar(s: Squares, cur: Cursor, c: char): Result<(Squares, Cursor), FenError> {
    if '0' < c < '9' then Ok((s, Cursor(cur.row, cur.col + (c as int - '0' as int))))
    else if c == '/' then Ok((s, Cursor(cur.row - 1, 0)))
    else match CharToPiece(c)
      case None => Err(BadPlacement)
      case Some(k) =>
        var p := Pair(cur.col, cur.row);
        if InBounds(p) then Ok((Put(s, p, k), Cursor(cur.row, cur.col + 1))) else Err(BadPlacement)
  }

  /** The placement loop from a given state over the rest of the field. */
  function Run(text: string, s: Squares, cur: Cursor): Result<(Squares, Cursor), FenError>
    decreases |text|
  {
    if text == [] then Ok((s, cur))
    else
      var st :- PlaceChar(s, cur, text[0]);
      Run(text[1..], st.0, st.1)
  }

  /** The placement field read onto an empty board from the top-left square a8. */
  function Placement(text: string): Result<Squares, FenError> {
    match Run(text, EmptySquares(), Cursor(7, 0))
    case Err(e) => Err(e)
    case Ok(st) => Ok(st.0)
  }

  /** Reading two pieces of text one after the other. */
  lemma {:induction false} RunAppend(a: string, b: string, s: Squares, cur: Cursor)
    ensures Run(a + b, s, cur) == match Run(a, s, cur) case Err(e) => Err(e) case Ok(st) => Run(b, st.0, st.1)
    decreases |a|
  {
    if a == [] {
      assert a + b == b;
    } else {
      assert (a + b)[0] == a[0] && (a + b)[1..] == a[1..] + b;
      var r := PlaceChar(s, cur, a[0]);
      if r.Ok? {
        RunAppend(a[1..], b, r.value.0, r.value.1);
      }
    }
  }

  /** Reading b after a piece of text a that reads to (s', cur'). */
  lemma RunAppendOk(a: string, b: string, s: Squares, cur: Cursor, s': Squares, cur': Cursor)
    requires Run(a, s, cur) == Ok((s', cur'))
    ensures Run(a + b, s, cur) == Run(b, s', cur')
  {
    RunAppend(a, b, s, cur);
  }

  /** A character that is neither a skip digit nor '/' is read as a piece letter. */
  lemma PlaceCharPiece(s: Squares, cur: Cursor, c: char)
    requires !('0' < c < '9') && c != '/'
    ensures PlaceChar(s, cur, c) == match CharToPiece(c)
      case None => Err(BadPlacement)
      case Some(k) =>
        if InBounds(Pair(cur.col, cur.row)) then Ok((Put(s, Pair(cur.col, cur.row), k), Cursor(cur.row, cur.col + 1)))
        else Err(BadPlacement)
  {
  }

  /** The squares from the cursor on, in reading order, are still empty. */
  predicate Unread(s: Squares, cur: Cursor) {
    forall n :: 0 <= n < 64 && !Visited(n, cur.row, cur.col) ==> s[n] == EMPTY
  }

  /** Each character keeps the squares from the cursor on empty: a piece goes on the cursor's own square. */
  lemma PlaceCharUnread(s: Squares, cur: Cursor, c: char)
    requires Unread(s, cur) && PlaceChar(s, cur, c).Ok?
    ensures Unread(PlaceChar(s, cur, c).value.0, PlaceChar(s, cur, c).value.1)
  {
    var st := PlaceChar(s, cur, c).value;
    if !('0' < c < '9') && c != '/' {
      var n := PairToInt(Pair(cur.col, cur.row));
      forall j | 0 <= j < 64 && !Visited(j, cur.row, cur.col + 1) ensures st.0[j] == EMPTY {
        VisitedStep(j, cur.row, cur.col);
      }
    }
  }

  /** The placement loop as written, from row 0 downwards in the field with '/' going to row + 1. */
  function PlaceCharAsWritten(s: Squares, cur: Cursor, c: char): Result<(Squares, Cursor), FenError> {
    if c == '/' then Ok((s, Cursor(cur.row + 1, 0))) else PlaceChar(s, cur, c)
  }

  /** The placement loop as written, over the rest of the field. */
  function RunAsWritten(text: string, s: Squares, cur: Cursor): Result<(Squares, Cursor), FenError>
    decreases |text|
  {
    if text == [] then Ok((s, cur))
    else
      var st :- PlaceCharAsWritten(s, cur, text[0]);
      RunAsWritten(text[1..], st.0, st.1)
  }

  /** The placement field read as written: from row 0, the a1 square, onto an empty board. */
  function PlacementAsWritten(text: string): Result<Squares, FenError> {
    match RunAsWritten(text, EmptySquares(), Cursor(0, 0))
    case Err(e) => Err(e)
    case Ok(st) => Ok(st.0)
  }

  /**
   * As written, the second rank of the field, rank 7, is read onto rank 2: in "8/k" the
   * king lands on a2 and a7 stays empty.
   */
  lemma PlacementAsWrittenMisses()
    ensures var r := PlacementAsWritten("8/k");
      r.Ok? && PieceAt(r.value, Pair(0, 1)) == BKING && PieceAt(r.value, Pair(0, 6)) == EMPTY
  {
    assert "8/k"[1..] == "/k" && "/k"[1..] == "k" && "k"[1..] == [];
  }

  /** Corrected, the field is read from a8 downwards: in "8/k" the king lands on a7 and a2 stays empty. */
  lemma PlacementReadsDownward()
    ensures var r := Placement("8/k");
      r.Ok? && PieceAt(r.value, Pair(0, 6)) == BKING && PieceAt(r.value, Pair(0, 1)) == EMPTY
  {
    assert "8/k"[1..] == "/k" && "/k"[1..] == "k" && "k"[1..] == [];
  }

  // ---- the placement writer ----

  /** One square in the writer's output: '1' for an empty square, else the piece letter. */
  function Cell(s: Squares, p: Pair): string
    requires InBounds(p)
  {
    if PieceAt(s, p) == EMPTY then "1" else [PieceToChar(PieceAt(s, p))]
  }

  /** A rank from column col to the right edge. */
  function RankText(s: Squares, row: int, col: int): string
    requires 0 <= row < 8 && 0 <= col <= 8
    decreases 8 - col
  {
    if col == 8 then "" else Cell(s, Pair(col, row)) + RankText(s, row, col + 1)
  }

  /** Ranks row down to 0, separated by '/'. */
  function RanksText(s: Squares, row: int): string
    requires 0 <= row < 8
    decreases row
  {
    RankText(s, row, 0) + if row == 0 then "" else "/" + RanksText(s, row - 1)
  }

  /** The placement field of a board, rank 8 first. */
  function PlacementText(s: Squares): string {
    RanksText(s, 7)
  }

  /** Whether index n comes before the cursor (row, col) in reading order: a higher row, or the same row further left. */
  predicate Visited(n: int, row: int, col: int) {
    n / 8 > row || (n / 8 == row && n % 8 < col)
  }

  /** The board as read so far: the squares before the cursor hold s's pieces, the rest are empty. */
  function Prefill(s: Squares, row: int, col: int): Squares {
    seq(64, n requires 0 <= n < 64 => if Visited(n, row, col) then s[n] else EMPTY)
  }

  /** Moving the cursor one square right visits exactly the cursor's square. */
  lemma VisitedStep(n: int, row: int, col: int)
    requires 0 <= n < 64 && 0 <= row < 8 && 0 <= col < 8
    ensures Visited(n, row, col + 1) <==> Visited(n, row, col) || n == 8 * row + col
  {
  }

  /** Reading one more square copies s's square into the board read so far. */
  lemma PrefillStep(s: Squares, row: int, col: int)
    requires 0 <= row < 8 && 0 <= col < 8
    ensures Prefill(s, row, col + 1) == Prefill(s, row, col)[8 * row + col := s[8 * row + col]]
  {
    var a := Prefill(s, row, col + 1);
    var b := Prefill(s, row, col)[8 * row + col := s[8 * row + col]];
    forall n | 0 <= n < 64 ensures a[n] == b[n] {
      VisitedStep(n, row, col);
    }
  }

  /** The end of a rank is the start of the next rank down. */
  lemma PrefillRankEnd(s: Squares, row: int)
    requires 1 <= row < 8
    ensures Prefill(s, row, 8) == Prefill(s, row - 1, 0)
  {
    var a := Prefill(s, row, 8);
    var b := Prefill(s, row - 1, 0);
    forall n | 0 <= n < 64 ensures a[n] == b[n] {
      assert Visited(n, row, 8) <==> Visited(n, row - 1, 0);
    }
  }

  /** Before anything is read the board is empty; after the last rank it is s. */
  lemma PrefillEnds(s: Squares)
    ensures Prefill(s, 7, 0) == EmptySquares()
    ensures Prefill(s, 0, 8) == s
  {
    var e := EmptySquares();
    var a := Prefill(s, 7, 0);
    forall n | 0 <= n < 64 ensures a[n] == e[n] {
      assert !Visited(n, 7, 0);
    }
    var b := Prefill(s, 0, 8);
    forall n | 0 <= n < 64 ensures b[n] == s[n] {
      assert Visited(n, 0, 8);
    }
  }

  /** Reading one written square fills it in. */
  lemma CellRun(s: Squares, row: int, col: int)
    requires 0 <= row < 8 && 0 <= col < 8
    ensures Run(Cell(s, Pair(col, row)), Prefill(s, row, col), Cursor(row, col))
      == Ok((Prefill(s, row, col + 1), Cursor(row, col + 1)))
  {
    var p := Pair(col, row);
    var n := PairToInt(p);
    var k := PieceAt(s, p);
    var before := Prefill(s, row, col);
    PrefillStep(s, row, col);
    assert before[n] == EMPTY;
    if k == EMPTY {
      assert before[n := k] == before;
    } else {
      var c := PieceToChar(k);
      PieceCharRoundTrip(k, c);
      assert [c][1..] == [];
      assert Put(before, p, k) == before[n := k];
    }
  }

  /** Reading a written rank from column col fills in the rest of the rank. */
  lemma {:induction false} RankRun(s: Squares, row: int, col: int)
    requires 0 <= row < 8 && 0 <= col <= 8
    ensures Run(RankText(s, row, col), Prefill(s, row, col), Cursor(row, col)) == Ok((Prefill(s, row, 8), Cursor(row, 8)))
    decreases 8 - col
  {
    if col < 8 {
      RankStep(s, row, col);
      RankRun(s, row, col + 1);
    } else {
      assert RankText(s, row, col) == [];
    }
  }

  /** Reading a written rank from column col is reading its first square, then the rest from col + 1. */
  lemma RankStep(s: Squares, row: int, col: int)
    requires 0 <= row < 8 && 0 <= col < 8
    ensures Run(RankText(s, row, col), Prefill(s, row, col), Cursor(row, col))
      == Run(RankText(s, row, col + 1), Prefill(s, row, col + 1), Cursor(row, col + 1))
  {
    var c := Cell(s, Pair(col, row));
    var u := RankText(s, row, col + 1);
    assert RankText(s, row, col) == c + u;
    CellRun(s, row, col);
    RunAppendOk(c, u, Prefill(s, row, col), Cursor(row, col), Prefill(s, row, col + 1), Cursor(row, col + 1));
  }

  /** Reading written ranks row down to 0 fills in the whole board. */
  lemma {:induction false} RanksRun(s: Squares, row: int)
    requires 0 <= row < 8
    ensures Run(RanksText(s, row), Prefill(s, row, 0), Cursor(row, 0)) == Ok((s, Cursor(0, 8)))
    decreases row
  {
    var rest := if row == 0 then "" else "/" + RanksText(s, row - 1);
    RunAppend(RankText(s, row, 0), rest, Prefill(s, row, 0), Cursor(row, 0));
    RankRun(s, row, 0);
    if row == 0 {
      PrefillEnds(s);
    } else {
      RunAppend("/", RanksText(s, row - 1), Prefill(s, row, 8), Cursor(row, 8));
      PrefillRankEnd(s, row);
      RanksRun(s, row - 1);
    }
  }

  /** Reading the written placement of a board gives the board. */
  lemma PlacementRoundTrip(s: Squares)
    ensures Placement(PlacementText(s)) == Ok(s)
  {
    PrefillEnds(s);
    RanksRun(s, 7);
  }

  // ---- fields 2-6 ----

  /** The en-passant field: "-" or a square name (PGN Standard, section 16.1.3.4). */
  function EnPassantField(f: string): (r: Result<Option<Pair>, FenError>)
    ensures r == Ok(None) <==> f == "-"
    ensures r.Ok? && r.value.Some? ==> InBounds(r.value.value) && SquareName(r.value.value) == f
    ensures r.Err? <==> f != "-" && !IsSquareName(f)
  {
    if f == "-" then Ok(None)
    else if IsSquareName(f) then (SqRoundTrip(Pair(0, 0), f); Ok(Some(Sq(f))))
    else Err(BadEnPassant)
  }

  /** The en-passant read as written: the row from the second and the column from the third character. */
  predicate EnPassantAsWrittenInRange(f: string) {
    f == "-" || |f| >= 3
  }

  /** As written, the field "e3" is read one past its end; corrected, it is the square e3. */
  lemma EnPassantAsWrittenMisses()
    ensures !EnPassantAsWrittenInRange("e3") && EnPassantField("e3") == Ok(Some(Pair(4, 2)))
  {
  }

  predicate IsDigit(c: char) { '0' <= c <= '9' }

  /** A string of decimal digits read as a number; None when it is empty or holds another character. */
  function Digits(s: string): (r: Option<nat>)
    ensures r.Some? <==> |s| > 0 && forall i :: 0 <= i < |s| ==> IsDigit(s[i])
    decreases |s|
  {
    if |s| == 0 || !IsDigit(s[|s| - 1]) then None
    else
      var d := s[|s| - 1] as int - '0' as int;
      if |s| == 1 then Some(d)
      else match Digits(s[..|s| - 1])
        case None => None
        case Some(n) => Some(10 * n + d)
  }

  /** strconv.ParseInt in base 10: an optional sign, then digits. */
  function ParseNumber(s: string): (r: Option<int>)
    ensures r.Some? <==> (if |s| > 0 && (s[0] == '+' || s[0] == '-') then Digits(s[1..]).Some? else Digits(s).Some?)
  {
    if |s| > 0 && (s[0] == '+' || s[0] == '-') then
      match Digits(s[1..])
      case None => None
      case Some(n) => Some(if s[0] == '-' then -(n as int) else n as int)
    else match Digits(s)
      case None => None
      case Some(n) => Some(n)
  }

  function NumberField(f: string): Result<int, FenError> {
    match ParseNumber(f)
    case None => Err(BadNumber)
    case Some(n) => Ok(n)
  }

  /** The decimal digits of a natural number, the partner of Digits. */
  function DecimalText(n: nat): (t: string)
    ensures |t| > 0 && forall i :: 0 <= i < |t| ==> IsDigit(t[i])
  {
    if n < 10 then [(n + '0' as int) as char]
    else DecimalText(n / 10) + [(n % 10 + '0' as int) as char]
  }

  /** Reading the decimal digits of n gives n. */
  lemma {:induction false} DigitsRoundTrip(n: nat)
    ensures Digits(DecimalText(n)) == Some(n)
  {
    var t := DecimalText(n);
    if n >= 10 {
      assert t[..|t| - 1] == DecimalText(n / 10);
      DigitsRoundTrip(n / 10);
    }
  }

  /** A number field written as decimal digits reads back. */
  lemma NumberRoundTrip(n: nat)
    ensures NumberField(DecimalText(n)) == Ok(n)
  {
    DigitsRoundTrip(n);
    var t := DecimalText(n);
    assert IsDigit(t[0]);
  }

  // ---- the whole record ----

  /**
   * CreateChessboard on its argument: the placement onto an empty board; White to
   * move exactly when the side field is "w"; each of K, Q, k, q in the castling
   * field grants its own right and other characters grant none; the en-passant
   * square; the two clocks.
   */
  function ParseFen(text: string): Result<Position, FenError> {
    var f := Split(text, ' ');
    if |f| < 6 then Err(MissingField) else ReadFields(f)
  }

  /** The position from the first six fields of a record. */
  function ReadFields(f: seq<string>): Result<Position, FenError>
    requires |f| >= 6
  {
    var squares :- Placement(f[0]);
    var ep :- EnPassantField(f[3]);
    var half :- NumberField(f[4]);
    var full :- NumberField(f[5]);
    Ok(Position(squares, f[1] == "w", ep, 'k' in f[2], 'q' in f[2], 'K' in f[2], 'Q' in f[2], half, full))
  }

  /** The six fields read to a given position exactly when each field reads to its part of it. */
  lemma ReadFieldsOk(f: seq<string>, pos: Position)
    requires |f| >= 6
    ensures ReadFields(f) == Ok(pos) <==>
      Placement(f[0]) == Ok(pos.squares) && (f[1] == "w" <==> pos.whiteToMove)
      && ('k' in f[2] <==> pos.blackKingCastle) && ('q' in f[2] <==> pos.blackQueenCastle)
      && ('K' in f[2] <==> pos.whiteKingCastle) && ('Q' in f[2] <==> pos.whiteQueenCastle)
      && EnPassantField(f[3]) == Ok(pos.enPassant)
      && NumberField(f[4]) == Ok(pos.halfmoveClock) && NumberField(f[5]) == Ok(pos.fullmoveCounter)
  {
  }

  /** CreateChessgame of the draft: the initial position's record read. */
  function CreateChessgame(): Result<Position, FenError> {
    ParseFen(InitialFen)
  }

  /** CreateChessboard as written: its argument is never read. */
  function CreateChessboardAsWritten(fen: string): Result<Position, FenError> {
    ParseFen(InitialFen)
  }

  /** As written, every record gives the same position. */
  lemma CreateChessboardAsWrittenIgnores(fen1: string, fen2: string)
    ensures CreateChessboardAsWritten(fen1) == CreateChessboardAsWritten(fen2)
  {
  }

  /** The castling field of a position: the letters of the rights held in the order K, Q, k, q, or "-". */
  function CastlingText(pos: Position): string {
    var t := (if pos.whiteKingCastle then "K" else "") + (if pos.whiteQueenCastle then "Q" else "")
      + (if pos.blackKingCastle then "k" else "") + (if pos.blackQueenCastle then "q" else "");
    if t == "" then "-" else t
  }

  /** The side field: "w" or "b". */
  function SideText(white: bool): string {
    if white then "w" else "b"
  }

  function EnPassantText(ep: Option<Pair>): string
    requires ep.Some? ==> InBounds(ep.value)
  {
    match ep
    case None => "-"
    case Some(p) => SquareName(p)
  }

  /** A position a record can describe: an on-board en-passant square and clocks that are not negative. */
  predicate Writable(pos: Position) {
    (pos.enPassant.Some? ==> InBounds(pos.enPassant.value)) && pos.halfmoveClock >= 0 && pos.fullmoveCounter >= 0
  }

  /** The six fields of a position. */
  function FenFields(pos: Position): (f: seq<string>)
    requires Writable(pos)
    ensures |f| == 6
  {
    [PlacementText(pos.squares), SideText(pos.whiteToMove), CastlingText(pos),
     EnPassantText(pos.enPassant), DecimalText(pos.halfmoveClock), DecimalText(pos.fullmoveCounter)]
  }

  /** The record of a position (the source's GetFEN is declared without a body). */
  function FenText(pos: Position): string
    requires Writable(pos)
  {
    Join(FenFields(pos), ' ')
  }

  lemma {:induction false} RankTextNoSpace(s: Squares, row: int, col: int)
    requires 0 <= row < 8 && 0 <= col <= 8
    ensures ' ' !in RankText(s, row, col)
    decreases 8 - col
  {
    if col < 8 {
      var k := PieceAt(s, Pair(col, row));
      if k != EMPTY {
        assert PieceToChar(k) != ' ';
      }
      RankTextNoSpace(s, row, col + 1);
    }
  }

  lemma {:induction false} RanksTextNoSpace(s: Squares, row: int)
    requires 0 <= row < 8
    ensures ' ' !in RanksText(s, row)
    decreases row
  {
    RankTextNoSpace(s, row, 0);
    if row > 0 {
      RanksTextNoSpace(s, row - 1);
    }
  }

  lemma DecimalNoSpace(n: nat)
    ensures ' ' !in DecimalText(n)
  {
    var t := DecimalText(n);
    assert forall i :: 0 <= i < |t| ==> t[i] != ' ';
  }

  lemma EnPassantRoundTrip(ep: Option<Pair>)
    requires ep.Some? ==> InBounds(ep.value)
    ensures ' ' !in EnPassantText(ep)
    ensures EnPassantField(EnPassantText(ep)) == Ok(ep)
  {
    if ep.Some? {
      SqRoundTrip(ep.value, "");
      var t := EnPassantText(ep);
      assert t[0] != ' ' && t[1] != ' ';
    }
  }

  /** Each castling right is read back from the written castling field, which holds no space. */
  lemma CastlingRoundTrip(pos: Position)
    ensures var t := CastlingText(pos);
      ' ' !in t && ('k' in t <==> pos.blackKingCastle) && ('q' in t <==> pos.blackQueenCastle)
      && ('K' in t <==> pos.whiteKingCastle) && ('Q' in t <==> pos.whiteQueenCastle)
  {
  }

  /** Six space-free fields joined by spaces split back into the six fields. */
  lemma SplitSix(a: string, b: string, c: string, d: string, e: string, g: string)
    requires ' ' !in a && ' ' !in b && ' ' !in c && ' ' !in d && ' ' !in e && ' ' !in g
    ensures Split(Join([a, b, c, d, e, g], ' '), ' ') == [a, b, c, d, e, g]
  {
    var f := [a, b, c, d, e, g];
    assert forall i :: 0 <= i < |f| ==> ' ' !in f[i];
    SplitJoin(f, ' ');
  }

  /** Reading the six written fields of a position gives the position back. */
  lemma ReadFieldsRoundTrip(pos: Position)
    requires Writable(pos)
    ensures ReadFields(FenFields(pos)) == Ok(pos)
  {
    var f := FenFields(pos);
    var a, b, c, d, e, g := f[0], f[1], f[2], f[3], f[4], f[5];
    assert f == [a, b, c, d, e, g];
    assert Placement(a) == Ok(pos.squares) by { PlacementRoundTrip(pos.squares); }
    assert EnPassantField(d) == Ok(pos.enPassant) by { EnPassantRoundTrip(pos.enPassant); }
    assert NumberField(e) == Ok(pos.halfmoveClock) by { NumberRoundTrip(pos.halfmoveClock); }
    assert NumberField(g) == Ok(pos.fullmoveCounter) by { NumberRoundTrip(pos.fullmoveCounter); }
    assert ('k' in c <==> pos.blackKingCastle) && ('q' in c <==> pos.blackQueenCastle)
      && ('K' in c <==> pos.whiteKingCastle) && ('Q' in c <==> pos.whiteQueenCastle) by { CastlingRoundTrip(pos); }
    assert b == "w" <==> pos.whiteToMove;
    ReadFieldsOk(f, pos);
  }

  /** Reading the record of a position gives the position back. */
  lemma FenRoundTrip(pos: Position)
    requires Writable(pos)
    ensures ParseFen(FenText(pos)) == Ok(pos)
  {
    RanksTextNoSpace(pos.squares, 7);
    assert ' ' !in SideText(pos.whiteToMove);
    CastlingRoundTrip(pos);
    EnPassantRoundTrip(pos.enPassant);
    DecimalNoSpace(pos.halfmoveClock);
    DecimalNoSpace(pos.fullmoveCounter);
    SplitSix(PlacementText(pos.squares), SideText(pos.whiteToMove), CastlingText(pos),
      EnPassantText(pos.enPassant), DecimalText(pos.halfmoveClock), DecimalText(pos.fullmoveCounter));
    ReadFieldsRoundTrip(pos);
  }

  /** A record with fewer than six fields, or an unknown letter in its placement, is rejected. */
  lemma FenRejects(text: string)
    ensures |Split(text, ' ')| < 6 ==> ParseFen(text) == Err(MissingField)
    ensures |Split(text, ' ')| >= 6 && Placement(Split(text, ' ')[0]).Err? ==> ParseFen(text) == Err(BadPlacement)
  {
    var f := Split(text, ' ');
    if |f| >= 6 && Placement(f[0]).Err? {
      PlacementErrors(f[0], EmptySquares(), Cursor(7, 0));
    }
  }

  /** The placement loop fails only with BadPlacement. */
  lemma {:induction false} PlacementErrors(text: string, s: Squares, cur: Cursor)
    ensures Run(text, s, cur).Err? ==> Run(text, s, cur).error == BadPlacement
    decreases |text|
  {
    if text != [] {
      var r := PlaceChar(s, cur, text[0]);
      if r.Ok? {
        PlacementErrors(text[1..], r.value.0, r.value.1);
      }
    }
  }
}
