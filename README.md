# A verified model of the chessboard engine

This project models the core of a small chess engine written in Go: the
`Chessboard` struct and its operations in `pkg/chessboard/chessboard.go`, together
with the earlier draft of the same code in `chessboard.go`. The engine keeps the
board as thirteen 64-bit bitboards, one per piece kind (slot 0 unused). Besides
the board it records the side to move, the en-passant target, the four castling
rights and the two clocks.

The model has these parts:

- **Reading a position.** `CreateChessboard` reads a record in Forsyth-Edwards
  Notation into the struct.
- **Queries on the board.** `getPiece`, `erasePiece` and `putPiece` work on the
  bitboards.
- **Attacks.** `SquareIsThreatened` is the attack test and `GetKingPosition` is the
  king search.
- **Legality.** `CheckMoveLegality` checks the gates, then castling or king safety.
- **Move generation.** `getMoveList` produces every legal move.
- **Moving.** `makeMove` decodes a move token and changes the position.

The model has two layers:

- **Specification modules.** `Coords`, `Pieces`, `Game`, `Bitboards`, `Attacks`,
  `Legality`, `MoveGen`, `Execution` and `Fen` are pure modules. They state the
  rules on a 64-square mailbox, `Game.Squares`, and on the `Game.Position` value.
  The `Bitboards.View` function links the thirteen bitboards to the mailbox.
- **The engine.** The `Engine` module's `Chessboard` class holds the struct's
  fields, with the bitboards as an `array<bv64>`. Its methods perform the source's
  loops and updates in place. Each method is proved against the specification
  function that states its result or its new state. `Snapshot()` is the position
  the fields hold.

Where the code is evidently broken, the model follows the evidently intended
behaviour. Each such correction is described at its line in the doc comment of the
module concerned. Ten of them are also modelled as written; they appear under
"Findings". The other corrections, each in one line:

- `SquareIsThreatened` never advances along a ray (lines 300-315, 354-368). When
  Black attacks, an empty square makes the loop run forever (lines 300-332). The
  model walks each ray outward.
- Its pawn tests use one file twice (lines 281/284, 335/338). The model looks at
  both diagonals.
- When White attacks, its colour test stops at empty squares (lines 358, 375).
  The model passes over them.
- Every castling case passes the wrong side to `SquareIsThreatened` (lines 441-482).
  The model asks whether the opponent attacks.
- `CheckMoveLegality` has three further faults:
  - it bounds-checks `from` twice and never `to` (line 406);
  - it returns `threat` instead of its negation (line 514);
  - it simulates on the live board and never restores it (lines 497-512).

  The model checks both squares, accepts a move when the king is safe, and
  simulates on a scratch copy.
- A non-castling king move leaves the switch without being simulated (lines
  436-490). The model simulates every non-castling move.
- In `getMoveList`:
  - the scan runs over 9 × 9 pairs (lines 538-539). The squares off the board hold
    nothing and contribute no move, so the model scans the 64 squares;
  - the white pawn may capture onto empty squares (lines 572, 576). The model does
    not allow it;
  - the bishop and queen lists repeat one diagonal and miss another (lines
    629-636, 688-695). The model puts the missing diagonal in place of the repeat
    and keeps the order;
  - the ray loop stops after one square (lines 698-715). The model walks the ray;
  - promotions are written as the letters 'Q', 'R', 'N', 'B' (lines 720-729). The
    model names the piece kind of the mover's colour. Every move that does not bring
    a pawn to its last rank carries no promotion, pawn pushes included.
- `makeMove` (lines 764-772) does only three things: it relocates the piece, puts
  the promotion piece, and leaves everything else as it was. Three additions under
  "Left out" say what the model adds.
- The en-passant field "-" leaves `EnPassantSquare` at its zero value {0,0},
  which is the a1 square (lines 233-237). A black pawn on b2 therefore gets a1 as a
  diagonal destination even when a1 is empty (lines 553-555), and getMoveList offers
  that move to the legality checker with promotion 'Q'. The model keeps the
  en-passant target as an Option, so "none" matches no square and no such move is
  generated.

## Model

| member | source | states |
|---|---|---|
| Coords.PairToInt | pkg/chessboard/chessboard.go:183-185 | the index of a square on the board is below 64, and dividing it by 8 gives back the row and the column |
| Coords.IntToPair | pkg/chessboard/chessboard.go:179-181 | an index below 64 gives a square on the board whose pairToInt is that index |
| Coords.IntToPairRoundTrip | pkg/chessboard/chessboard.go:179-185 | intToPair undoes pairToInt on every square of the board |
| Coords.PairToIntInjective | pkg/chessboard/chessboard.go:183-185 | two squares of the board with the same index are the same square |
| Coords.IntToPairAsWrittenMisses | pkg/chessboard/chessboard.go:179-181 | as written, intToPair(1) is the square whose index is 8 |
| Coords.AddPairExample | pkg/chessboard/chessboard_test.go:7-17 | addPair({1,2},{2,1}) is {3,3}, the repository's own test |
| Coords.SqRoundTrip | pkg/chessboard/chessboard.go:168-170 | the corrected sq and the square-name writer are inverse: every square of the board has a two-letter name that sq reads back, and every file-letter-rank-digit name reads to a square whose name it is |
| Coords.SqAsWrittenMisses | pkg/chessboard/chessboard.go:168-170 | as written, sq("e1") is e2 and sq("e8") is off the board, while the corrected sq gives e1 and e8 |
| Coords.TablesExact | pkg/chessboard/chessboard.go:40-74 | knightMoves, kingMoves, bishopSlides and rookSlides list each knight jump, king step, diagonal and orthogonal direction exactly once |
| Pieces.PieceCharRoundTrip | pkg/chessboard/chessboard.go:25-38 | charToPiece and the corrected pieceToChar are inverse: each of the twelve kinds has a letter that reads back to it, and each letter that reads to a piece reads to a real piece whose letter it is |
| Pieces.PieceToCharAsWrittenCollides | pkg/chessboard/chessboard.go:76-89 | as written, pieceToChar prints each knight with the letter of the king of its colour |
| Game.NamedSquares | pkg/chessboard/chessboard.go:441-485 | the corrected sq gives the castling squares e1, f1, g1, d1, c1, b1 and e8, f8, g8, d8, c8, b8 that the castling cases name |
| Game.Erase | pkg/chessboard/chessboard.go:261-269 | erasePiece on the mailbox: the square is empty afterwards and every other square keeps its piece |
| Game.Put | pkg/chessboard/chessboard.go:271-276 | putPiece on the mailbox: the square holds the piece afterwards and every other square keeps its piece |
| Game.FirstIndexOf | pkg/chessboard/chessboard.go:396-400 | the scan returns an index holding the kind with no earlier index holding it, and returns none only when no index from the start holds it |
| Game.KingSquare | pkg/chessboard/chessboard.go:391-402 | the king search returns a square on the board holding the side's king, with no square of lower index holding it, and returns none exactly when the side has no king |
| Bitboards.BitAsWrittenMisses | pkg/chessboard/chessboard.go:522 | as written, getPiece's test `& (1 << n) == 1` misses the set bit of square 4 |
| Bitboards.KingTestAsWrittenMisses | pkg/chessboard/chessboard.go:397 | as written, GetKingPosition's test `1 == (1 << i) \| bb` misses the king's set bit on square 4 |
| Bitboards.BitClear | pkg/chessboard/chessboard.go:264-267 | masking with `^uint64(0) ^ (1 << n)` clears bit n and keeps every other bit |
| Bitboards.BitSet | pkg/chessboard/chessboard.go:274-275 | `\|= 1 << n` sets bit n and keeps every other bit |
| Bitboards.BitZero | pkg/chessboard/chessboard.go:138 | the zero bitboard of a new struct has no bit set, and clearing a bit of it leaves it zero |
| Bitboards.ClearedBits | pkg/chessboard/chessboard.go:261-269 | after erasePiece no bitboard has square n, and every other square's bits are unchanged in every bitboard |
| Bitboards.PlacedBits | pkg/chessboard/chessboard.go:271-276 | after putPiece square n is set in the piece's bitboard only, and every other square's bits are unchanged |
| Bitboards.ClearedWellFormed | pkg/chessboard/chessboard.go:261-269 | erasePiece keeps slot 0 empty and no square owned by two bitboards |
| Bitboards.PlacedWellFormed | pkg/chessboard/chessboard.go:271-276 | putPiece of a real piece keeps slot 0 empty and no square owned by two bitboards |
| Bitboards.FirstOwnerSound | pkg/chessboard/chessboard.go:521-526 | getPiece's scan returns a kind only when that kind's bitboard has the square and no earlier bitboard does; it returns 0 only when no bitboard after slot 0 has it |
| Bitboards.FirstOwnerSkip | pkg/chessboard/chessboard.go:521-525 | passing over bitboards that do not have the square leaves the scan's result unchanged |
| Bitboards.FirstOwnerFrame | pkg/chessboard/chessboard.go:521-525 | the scan's result depends only on the bits of the square it looks at |
| Bitboards.FirstOwnerUnique | pkg/chessboard/chessboard.go:521-525 | a square held by exactly one bitboard is found as that bitboard's kind |
| Bitboards.OccupantIff | pkg/chessboard/chessboard.go:517-527 | when no square has two owners, getPiece finds kind k on a square exactly when bitboard k has it |
| Bitboards.OccupantEmptyIff | pkg/chessboard/chessboard.go:517-527 | in a well-formed store getPiece finds no piece exactly when no bitboard 1..12 has the square |
| Bitboards.OccupantCleared | pkg/chessboard/chessboard.go:261-269 | after erasePiece getPiece finds nothing on the square and the old piece on every other square |
| Bitboards.OccupantPlaced | pkg/chessboard/chessboard.go:271-276 | after putPiece getPiece finds the piece on the square and the old piece on every other square |
| Bitboards.ViewCleared | pkg/chessboard/chessboard.go:261-269 | erasePiece empties exactly one entry of the board as getPiece reads it |
| Bitboards.ViewPlaced | pkg/chessboard/chessboard.go:271-276 | putPiece sets exactly one entry of the board as getPiece reads it |
| Bitboards.SetOnEmpty | pkg/chessboard/chessboard.go:207 | the reader's bare `\|=` on an empty square of a well-formed store puts the piece on that square and keeps the store well formed |
| Bitboards.ViewEmpty | pkg/chessboard/chessboard.go:188 | the zero-valued struct's bitboards read as the empty board and are well formed |
| Attacks.FirstOccupiedAt | pkg/chessboard/chessboard.go:300-315 | reference reading of a ray: after n empty squares on the board, the ray's scan returns what stands on the next square, nothing if it is off the board |
| Attacks.FirstOccupiedOnRay | pkg/chessboard/chessboard.go:300-315 | conversely, a piece the scan returns stands on the ray with only empty squares before it |
| Attacks.DiagonalAttack | pkg/chessboard/chessboard.go:299-315 | a bishop or queen of the attacking side that sees the square along a diagonal over empty squares attacks it |
| Attacks.OrthogonalAttack | pkg/chessboard/chessboard.go:316-332 | a rook or queen of the attacking side that sees the square along a rank or file over empty squares attacks it |
| Attacks.FirstOccupiedFrame | pkg/chessboard/chessboard.go:300-314 | a ray scan finds the same opponent piece, or the same empty result, on two boards that differ only in the placement of one side's pieces other than its king |
| Attacks.AttackedFrame | pkg/chessboard/chessboard.go:278-389 | such two boards have the same squares attacked by the opponent |
| Attacks.InCheckFrame | pkg/chessboard/chessboard.go:501-503 | such two boards have the side's king on the same square, so it is in check on both or on neither |
| Attacks.SlideHitWitness | pkg/chessboard/chessboard.go:299-332 | every slide hit is a piece of one of the two kinds on one direction from the square with only empty squares between |
| Legality.CastleOf | pkg/chessboard/chessboard.go:436-490 | a move counts as a castling only for a king moving two files along its rank |
| Legality.PromotionChoices | pkg/chessboard/chessboard.go:720-729 | the four promotion pieces are real pieces of the pawn's colour, none a king or a pawn |
| Legality.SimulatedContents | pkg/chessboard/chessboard.go:496-499 | the scratch board has `from` empty, the moving piece on `to`, the pawn taken en passant removed, and every other square as before |
| Legality.WhiteKingSideCastling | pkg/chessboard/chessboard.go:478-490 | with White's king on e1, e1-g1 is legal exactly when the right is held, f1 and g1 are empty, and none of e1, f1, g1 is attacked by Black |
| Legality.BlackQueenSideCastling | pkg/chessboard/chessboard.go:437-450 | with Black's king on e8, e8-c8 is legal exactly when the right is held, d8, c8, b8 are empty, and none of e8, d8, c8 is attacked by White |
| Legality.BlackKingSideCastling | pkg/chessboard/chessboard.go:451-463 | with Black's king on e8, e8-g8 is legal exactly when the right is held, f8 and g8 are empty, and none of e8, f8, g8 is attacked by White |
| Legality.WhiteQueenSideCastling | pkg/chessboard/chessboard.go:465-477 | with White's king on e1, e1-c1 is legal exactly when the right is held, d1, c1, b1 are empty, and none of e1, d1, c1 is attacked by Black |
| Legality.LegalMoveSafety | pkg/chessboard/chessboard.go:501-514 | after a legal non-castling move the mover's king stands on a square the opponent does not attack |
| Legality.PromotionChoiceIrrelevant | pkg/chessboard/chessboard.go:723-729 | two promotion pieces that both pass the promotion gate make the same move legal or illegal |
| MoveGen.DirectionListsExact | pkg/chessboard/chessboard.go:617-696 | the corrected bishop list holds each diagonal, the rook list each rank and file direction, and the queen list both, each once |
| MoveGen.RayTargetsExact | pkg/chessboard/chessboard.go:698-714 | the k-th square of a ray is a destination exactly when the squares before it are on the board and empty, and it is on the board and empty or holds an opposing piece |
| MoveGen.RayTargetsOnRay | pkg/chessboard/chessboard.go:698-714 | the destinations of a ray are the consecutive squares along it, in order |
| MoveGen.KnightTargetsExact | pkg/chessboard/chessboard.go:607-615 | the knight loops produce exactly the squares a knight's jump away |
| MoveGen.KnightGridLength | pkg/chessboard/chessboard.go:610-615 | the knight loops produce eight squares |
| MoveGen.KingGridExact | pkg/chessboard/chessboard.go:598-606 | the king's neighbour loops produce exactly the squares one king step away |
| MoveGen.KingGridLength | pkg/chessboard/chessboard.go:598-606 | the neighbour loops produce eight squares |
| MoveGen.PawnTargetsExact | pkg/chessboard/chessboard.go:547-581 | a pawn's destinations are the single push onto an empty square, the double push from the home rank over two empty squares, and a diagonal step onto an opposing piece or the en-passant target, and nothing else |
| MoveGen.PromotionAgreement | pkg/chessboard/chessboard.go:725-726 | a destination the generator tries lands on the pawn's last rank exactly when the pawn starts from its seventh rank |
| MoveGen.ExpandSound | pkg/chessboard/chessboard.go:716-731 | every move one destination contributes goes from the square to that destination and is legal |
| MoveGen.ExpandComplete | pkg/chessboard/chessboard.go:716-731 | a legal move whose destination's rank agrees with the seventh-rank test is among the moves that destination contributes |
| MoveGen.PromotionFanOut | pkg/chessboard/chessboard.go:723-730 | a legal pawn move from the seventh rank is listed four times, promoting to queen, rook, knight and bishop in that order |
| MoveGen.ExpandAllMembers | pkg/chessboard/chessboard.go:716-732 | the moves of a destination list are exactly the moves of its members |
| MoveGen.MovesFromExact | pkg/chessboard/chessboard.go:540-732 | the moves listed for a square are exactly the legal moves from it onto a destination its piece's movement rules reach |
| MoveGen.MovesBeforeMembers | pkg/chessboard/chessboard.go:538-733 | the moves of the first n squares of the scan are exactly the moves listed for one of them |
| MoveGen.LegalMovesExact | pkg/chessboard/chessboard.go:533-736 | getMoveList lists a move exactly when it is legal and its destination is one its piece's movement rules reach |
| Execution.TokenSquareAsWrittenMisses | pkg/chessboard/chessboard.go:749-756 | as written, the token squares "a1" and "h8" decode to b2 and to a square off the board, while corrected they are a1 and h8 |
| Execution.LengthGuardAsWrittenMisses | pkg/chessboard/chessboard.go:739-757 | as written, a five-character token passes the guard although the sixth character is then read |
| Execution.PromotionCode | pkg/chessboard/chessboard.go:757 | a promotion digit is a piece code exactly when it lies between '0' and '0' + 12, and then the code is its distance from '0' |
| Execution.ParseToken | pkg/chessboard/chessboard.go:739-762 | a token decodes exactly when it has six characters, the version tag '0' and a piece-code digit. The squares are then its file-rank pairs and the promotion is its digit. It is too short exactly when it has fewer than five characters, or five with the tag '0'. The version is wrong exactly when it has five or more characters and another tag |
| Execution.ParseMoveToken | pkg/chessboard/chessboard.go:742-757 | decoding the token of a move between squares of the board gives the move back |
| Execution.MoveTokenOfParse | pkg/chessboard/chessboard.go:742-757 | a token that decodes to a move on the board is, in its first six characters, that move's token |
| Execution.Relocate | pkg/chessboard/chessboard.go:768-769 | putPiece(to, getPiece(from)) then erasePiece(from) leaves `from` empty, the old piece of `from` on `to`, and every other square as before |
| Execution.GatedMoveMoves | pkg/chessboard/chessboard.go:405-424 | a move through the gates has both squares on the board and leaves its square |
| Execution.MakeMoveOutcome | pkg/chessboard/chessboard.go:738-775 | makeMove succeeds exactly when the token decodes and its move is legal. A malformed token gives its decoding error and an illegal move gives the illegal-move error. On success the result is the position after the move |
| Execution.AppliedBoardContents | pkg/chessboard/chessboard.go:768-772 | after an ordinary move `from` is empty, `to` holds the promotion piece if one is named and the moving piece otherwise, the pawn taken en passant is gone, and nothing else changes |
| Execution.CastlingContents | pkg/chessboard/chessboard.go:436-490 | after a castling the king stands on its destination and the rook beside it, both home squares are empty, and nothing else changes |
| Execution.RightsOnlyWithdrawn | pkg/chessboard/chessboard.go:141-144 | a move never grants a castling right. A king move withdraws both of its side's rights, and a move from or onto a1, h1, a8 or h8 withdraws that corner's right |
| Execution.ApplyMoveCounters | pkg/chessboard/chessboard.go:139-148 | the side to move changes and the fullmove number grows after Black's move only. The halfmove clock restarts exactly on a pawn move or a capture, and otherwise grows by one. An en-passant target is set exactly after a double push, on the square passed over |
| Execution.AppliedIsSimulated | pkg/chessboard/chessboard.go:496-499 | without a castling or a promotion, the board after the move is the legality checker's scratch board |
| Execution.AppliedLooksSimulated | pkg/chessboard/chessboard.go:768-772 | without a castling, the board after the move differs from the scratch board at most where a pawn became a promotion piece of its colour, so the opponent sees the same board |
| Execution.MoverNotInCheck | pkg/chessboard/chessboard.go:501-514 | a legal move that does not castle, a promotion included, never leaves the mover's king in check once it is made |
| Execution.GeneratedMoveSafe | pkg/chessboard/chessboard.go:716-733 | every move the generator lists is legal, and one that does not castle leaves the mover's king out of check once it is made |
| Execution.ValidateToken | chessboard.go:529-569 | the draft's makeMove accepts exactly a token of at least six characters with version '0' and an occupied from-square, whatever its sixth character, and gives each other token its error |
| Execution.ValidateTokenIgnoresPromotion | chessboard.go:545 | the sixth character is read and never used: changing it does not change the outcome |
| Execution.ValidateTokenAgainstParse | chessboard.go:529-569 | where the package version decodes a token, the draft accepts it exactly when the from-square is occupied, with the same squares and no promotion; both report the same length and version errors |
| Execution.ValidateTokenAcceptsLetter | chessboard.go:545 | the draft accepts "0e2e4Q" when e2 is occupied, while the package version rejects its promotion character |
| Fen.Split | pkg/chessboard/chessboard.go:190 | strings.Split returns at least one piece and no piece holds the separator |
| Fen.SplitJoin | pkg/chessboard/chessboard.go:190 | splitting joined separator-free fields gives the fields back |
| Fen.JoinSplit | pkg/chessboard/chessboard.go:190 | joining the pieces of a split gives the string back |
| Fen.RunAppend | pkg/chessboard/chessboard.go:193-210 | reading two pieces of text in a row is reading the first, then the second from where the first stopped |
| Fen.PlaceCharPiece | pkg/chessboard/chessboard.go:205-208 | a character that is neither a skip digit nor '/' puts its piece on the cursor's square and moves one square right, or is a placement error for an unknown letter or a square off the board |
| Fen.PlaceCharUnread | pkg/chessboard/chessboard.go:193-210 | each character keeps every square from the cursor on empty |
| Fen.PlacementAsWrittenMisses | pkg/chessboard/chessboard.go:189-204 | as written, the reader starts on row 0 and '/' moves up a row, so the king of "8/k" lands on a2 and a7 stays empty |
| Fen.PlacementReadsDownward | pkg/chessboard/chessboard.go:189-208 | corrected, the field is read from a8 downwards, so the king of "8/k" lands on a7 and a2 stays empty |
| Fen.PlacementRoundTrip | pkg/chessboard/chessboard.go:192-210 | reading the written placement field of any board gives that board |
| Fen.PlacementErrors | pkg/chessboard/chessboard.go:193-210 | the placement loop fails only with the placement error |
| Fen.EnPassantField | pkg/chessboard/chessboard.go:232-237 | the field reads as no target exactly when it is "-". Otherwise it reads as the square it names, and it is an error exactly when it is neither "-" nor a square name |
| Fen.EnPassantAsWrittenMisses | pkg/chessboard/chessboard.go:234-236 | as written, the field "e3" is read past its end, while corrected it is the square e3 |
| Fen.EnPassantRoundTrip | pkg/chessboard/chessboard.go:232-237 | the written en-passant field reads back to the same target and holds no space |
| Fen.Digits | pkg/chessboard/chessboard.go:241 | a string reads as a number exactly when it is non-empty and all decimal digits |
| Fen.ParseNumber | pkg/chessboard/chessboard.go:241-252 | strconv.ParseInt in base 10 accepts exactly an optional sign followed by digits |
| Fen.DigitsRoundTrip | pkg/chessboard/chessboard.go:241-245 | the decimal digits of a natural number read back to it |
| Fen.NumberRoundTrip | pkg/chessboard/chessboard.go:239-252 | a clock written in decimal reads back to it |
| Fen.ReadFieldsOk | pkg/chessboard/chessboard.go:192-252 | six fields read to a position exactly when each field reads to its part: the placement, White to move on "w", each of k, q, K, Q granting its own right, the en-passant target and the two clocks |
| Fen.CastlingRoundTrip | pkg/chessboard/chessboard.go:215-230 | each right is read back from the written castling field, which holds no space |
| Fen.ReadFieldsRoundTrip | pkg/chessboard/chessboard.go:192-252 | reading the six written fields of a position gives the position back |
| Fen.FenRoundTrip | pkg/chessboard/chessboard.go:187-255 | reading the written record of a position gives the position back |
| Fen.FenRejects | pkg/chessboard/chessboard.go:190-210 | a record with fewer than six fields is a missing-field error, and one whose placement fails is a placement error |
| Fen.CreateChessboardAsWrittenIgnores | pkg/chessboard/chessboard.go:187-190 | as written, every argument gives the same position |
| Engine.Chessboard.CreateChessboard | pkg/chessboard/chessboard.go:187-255 | the method succeeds exactly when the record reads and otherwise returns the reader's error. On success it builds a fresh well-formed board holding the position the record describes |
| Engine.Chessboard.Copy | pkg/chessboard/chessboard.go:505-512 | the scratch board is a fresh well-formed board holding the same position |
| Engine.Chessboard.ClearSquare | pkg/chessboard/chessboard.go:266-268 | the loop clears bit n in all thirteen bitboards |
| Engine.Chessboard.ErasePiece | pkg/chessboard/chessboard.go:261-269 | erasePiece keeps the store well formed, empties the square, and changes nothing else in the position |
| Engine.Chessboard.PutPiece | pkg/chessboard/chessboard.go:271-276 | putPiece keeps the store well formed, puts the piece on the square, and changes nothing else in the position |
| Engine.Chessboard.Displace | pkg/chessboard/chessboard.go:497-498 | the simulation's erase and put take the piece off `from` and put it on `to` |
| Engine.Chessboard.Owner | pkg/chessboard/chessboard.go:521-525 | getPiece's loop returns the first bitboard that has the square |
| Engine.Chessboard.GetPiece | pkg/chessboard/chessboard.go:517-527 | getPiece returns the piece on the square, 0 for an empty square or one off the board |
| Engine.Chessboard.OffsetThreat | pkg/chessboard/chessboard.go:287-298 | the knight and king loops find a hit exactly when a square one offset away holds the kind |
| Engine.Chessboard.RayThreat | pkg/chessboard/chessboard.go:300-315 | one ray hits exactly when its first occupied square holds one of the two kinds |
| Engine.Chessboard.SlideThreat | pkg/chessboard/chessboard.go:299-332 | the slide loops hit exactly when some ray first meets one of the two kinds |
| Engine.Chessboard.SquareIsThreatened | pkg/chessboard/chessboard.go:278-389 | the result is true exactly when the side opposing `white` attacks the square |
| Engine.Chessboard.GetKingPosition | pkg/chessboard/chessboard.go:391-402 | the result is the king search's square of the side to move, none when it has no king |
| Engine.Chessboard.SquaresSafe | pkg/chessboard/chessboard.go:441-442 | the result is true exactly when no listed square is attacked by the opponent |
| Engine.Chessboard.SquaresEmpty | pkg/chessboard/chessboard.go:444-446 | the result is true exactly when every listed square is empty |
| Engine.Chessboard.CastlingAllowed | pkg/chessboard/chessboard.go:436-490 | the castling cases accept exactly when the right is held, the king's path is not attacked and the squares between are empty |
| Engine.Chessboard.Simulate | pkg/chessboard/chessboard.go:496-499 | the simulation leaves the live board unchanged and builds a fresh scratch board holding the board after the move, with the same side to move |
| Engine.Chessboard.KingSafe | pkg/chessboard/chessboard.go:501-503 | the result is true exactly when the side to move is not in check |
| Engine.Chessboard.KingSafeAt | pkg/chessboard/chessboard.go:502-503 | given the king search's result, the result is true exactly when the side to move is not in check |
| Engine.Chessboard.KingSafeAfter | pkg/chessboard/chessboard.go:496-514 | the result is true exactly when the mover's king is not in check on the scratch board after the move |
| Engine.Chessboard.GatesHold | pkg/chessboard/chessboard.go:404-424 | the result is true exactly when the move passes the gates of the legality check, and then the moving piece is returned |
| Engine.Chessboard.CheckMoveLegality | pkg/chessboard/chessboard.go:404-515 | the result is true exactly when the move is legal, and the board is left unchanged |
| Engine.Chessboard.PawnDestinations | pkg/chessboard/chessboard.go:547-581 | the pawn cases produce the pawn's destinations in the source's order |
| Engine.Chessboard.KingDestinations | pkg/chessboard/chessboard.go:582-606 | the king cases produce the castling squares of the rights held, then the eight neighbours |
| Engine.Chessboard.KingNeighbours | pkg/chessboard/chessboard.go:598-606 | the neighbour loops produce the king's neighbour list |
| Engine.Chessboard.KingColumn | pkg/chessboard/chessboard.go:599-605 | the inner neighbour loop produces one column of the neighbour list |
| Engine.Chessboard.KnightDestinations | pkg/chessboard/chessboard.go:607-615 | the knight loops produce the knight's destination list |
| Engine.Chessboard.KnightColumn | pkg/chessboard/chessboard.go:611-614 | the inner knight loop produces the destinations for one outer offset |
| Engine.Chessboard.RayDestinations | pkg/chessboard/chessboard.go:698-714 | the ray loop produces the ray's destinations |
| Engine.Chessboard.SlideDestinations | pkg/chessboard/chessboard.go:698-715 | the slide loop produces the destinations of all rays of the list, in order |
| Engine.Chessboard.Destinations | pkg/chessboard/chessboard.go:540-715 | the method returns the piece on the square and the destinations the generator tries for it |
| Engine.Chessboard.ExpandOne | pkg/chessboard/chessboard.go:716-731 | the method returns the moves one destination contributes |
| Engine.Chessboard.ExpandDestinations | pkg/chessboard/chessboard.go:716-732 | the legality loop returns the moves of the destination list, in order |
| Engine.Chessboard.MovesOf | pkg/chessboard/chessboard.go:540-732 | the method returns the moves listed for one square |
| Engine.Chessboard.GetMoveList | pkg/chessboard/chessboard.go:533-736 | getMoveList returns exactly the generator's list of legal moves, square by square |
| Engine.Chessboard.Relocation | pkg/chessboard/chessboard.go:768-769 | the put and the erase relocate the piece and change nothing else in the position |
| Engine.Chessboard.MoveSourcePiece | pkg/chessboard/chessboard.go:768-772 | the board becomes the board after the source's three steps, and nothing else changes |
| Engine.Chessboard.TakePassedPawn | pkg/chessboard/chessboard.go:491 | the pawn taken en passant is removed when `take` holds, and nothing else changes |
| Engine.Chessboard.MoveCastlingRook | pkg/chessboard/chessboard.go:436-490 | a castling rook goes beside the king, and nothing else changes |
| Engine.Chessboard.UpdateBoard | pkg/chessboard/chessboard.go:768-772 | the board becomes the board after the move, and nothing else changes |
| Engine.Chessboard.SetRights | pkg/chessboard/chessboard.go:141-144 | the four castling rights take the given values, and nothing else changes |
| Engine.Chessboard.SetClocks | pkg/chessboard/chessboard.go:139-148 | the side to move, the en-passant target and the clocks take the given values, and nothing else changes |
| Engine.Chessboard.SetRecords | pkg/chessboard/chessboard.go:139-148 | every field except the bitboards takes the given value |
| Engine.Chessboard.UpdateRecords | pkg/chessboard/chessboard.go:139-148 | the records after a move: the side flips, the target, rights and clocks are updated, and the bitboards are unchanged |
| Engine.Chessboard.CarryOut | pkg/chessboard/chessboard.go:764-772 | given the moving piece and whether the move captures, carrying the move out gives the position after it |
| Engine.Chessboard.ApplyLegal | pkg/chessboard/chessboard.go:768-772 | carrying out a move gives the position after it |
| Engine.Chessboard.MakeMove | pkg/chessboard/chessboard.go:738-775 | a malformed or illegal token gives its error and leaves the position unchanged; otherwise the position becomes the one after the move |
| Engine.ReadPlacement | pkg/chessboard/chessboard.go:193-210 | the placement loop succeeds exactly when the placement field reads, and otherwise returns the reader's error. On success it fills fresh, well-formed bitboards that hold the board the field describes |
| Engine.PlacePiece | pkg/chessboard/chessboard.go:205-208 | a piece letter succeeds exactly when the reader accepts it, and then the bitboards hold the board after it |
| Engine.SetOnEmptySquare | pkg/chessboard/chessboard.go:207 | `bits[piece] \|= 1 << n` on an empty square puts the piece there and keeps the bitboards well formed |
| Engine.KingScanSkip | pkg/chessboard/chessboard.go:396-400 | the king loop passes over squares whose bit is clear without changing the search's result |
| Engine.ScanSquareOf | pkg/chessboard/chessboard.go:538-539 | step 8 × col + row of the scan visits the square (col, row) |

## Left out

- The struct's `Moves` field is never read or written and is not modelled. The declared-only methods are not modelled either: GetTripleRepetition, InsufficientMaterial, GetResult, GetFEN, DeclareResult, UndoMove, PrintBoard and GameOver (lines 153-165). `Fen.FenText` stands in for GetFEN as the writer the reader is proved against.
- `DoSomething` (lines 777-779) and the draft's `main` only print or call the constructor. They are not modelled, because they are output only.
- Each file declares those types and constants once; the draft's copies (chessboard.go:9-103) are not modelled separately.
- The draft's `getPiece` (chessboard.go:311-318) has no bounds test. The model uses the package version's getPiece for both.
- The draft's SquareIsThreattenned (chessboard.go:196-198) always returns false. Its CheckMoveLegality (chessboard.go:200-309) has the same gates and castling cases as the package version, but it accepts every other move that passes them without a king-safety test. Neither is modelled separately: the model checks legality once, as the package version does after the corrections above.
- The draft's getMoveList (chessboard.go:324-527) is the same loop as the package version's and is not modelled separately.
- Fen.CreateChessgame: the draft's constructor is modelled as reading the initial record. No lemma computes the resulting position, because the reader's unrolling over the 56-character constant is left to the roundtrip lemmas.
- Fen.ParseNumber: does not model strconv.ParseInt's range error for values outside 64 bits; any digit string reads as its value.
- The coordinates are int8 in the source and unbounded integers in the model. In the placement field the column wraps modulo 256 (line 196): a field of thirty-two '8's and then "3k" brings the column back to 3 and the source puts the king on the fourth file, while `Fen.Placement` reports `BadPlacement` for a rank that runs past the eighth square. A token square is the int8 of a byte difference (lines 750-755); it agrees with the model's unbounded difference on every value from 0 to 7, so both accept the same squares of the board.
- A placement field whose rank runs past the eighth square (for example "44k", which puts the king on the index 8 × row + 8, the first square of the next rank) or whose index is negative (the shift then panics) is reported as `BadPlacement`.
- A panic on a malformed number (lines 241-250) is modelled as the error `BadNumber`. A placement letter outside "KQRBNPkqrbnp" is modelled as `BadPlacement`; the source would instead set a bit of the unused bitboard 0. A square with index 64 or more is `BadPlacement` too; the source shifts its bit out of the word.
- A promotion character whose code `move[5] - '0'` is above 12 (as a byte, so a character below '0' wraps to 208 or more) would index outside BoardState at line 771. The model rejects the token as `BadPromotion` before the legality check. The source checks legality first (line 764): an illegal move with such a character returns "the move is Illegal" there, and only a legal one reaches the out-of-range index and panics.
- A record with fewer than six fields makes the source panic on an index (lines 213-248). The model reports `MissingField`.
- The source reads any en-passant field other than "-" by its indices without checking it (lines 234-236); a short field panics. The model reads a square name and reports anything else as `BadEnPassant`.
- `Attacks.InCheck` is false for a side with no king. The source instead tests the off-board pair intToPair(64) (lines 401, 503), which real squares touch: a knight on g2 or h3, or a rook ray along the first rank, attacks it.
- A token that names a promotion on a move that does not reach the last rank, such as "0e2e45", is `Illegal` in the model. The source ignores the promotion in CheckMoveLegality and then puts the piece of code 5 on e4 (lines 770-772).
- Execution.MoverNotInCheck: does not cover castlings, and neither does Execution.GeneratedMoveSafe. The castling conditions never ask for the rook on its corner, and the rook step moves whatever stands there. With a black king on a1, White's e1-c1 is allowed, and the king moved to d1 then stands next to the White king on c1.
- The source reads the FEN fields and the move token as bytes and the castling field as runes (lines 194, 216, 742-757). The model reads characters; input outside ASCII is not modelled.
- Execution.ValidateToken: reads the squares with the corrected origins and reports a five-character token as too short, as the package version does; the draft as written reads files from '`' and ranks from '0' and indexes the sixth character of a five-character token.
- The legality check and the executor include pieces the source leaves as placeholders (lines 491-493). The executor includes them as additions:
  - an en-passant capture removes the passed pawn;
  - castling moves the rook;
  - the side to move, the castling rights, the en-passant target and the clocks are updated;
  - a pawn reaching its last rank must name a queen, rook, knight or bishop of its colour.

  `makeMove` as written keeps only the first three board steps and leaves every record unchanged.
- Several functions hide their body behind a `depth` parameter that only counts down to the same value (`Bitboards.IdxAt`, `MaskAt`, `MaskedAt`, `ClearAt`, `SetAt`, `Game.KingSquareAt`, the Engine's `BoardAt`, `Holds` and `StoreSound`, `MoveGen.ExpandAt` and `MovesFromAt`). The pattern keeps the verifier from unfolding bit-vector arithmetic or a search into every proof that uses the function. Callers reason from the function's contract, and one lemma per function opens the body. It models nothing in the source.
- For the bitboard methods, the Chessboard class works on one object only. Aliasing between two boards is excluded by the scratch board being fresh.

## Findings

| source | as written | input that shows it | evidently intended | confidence | as-written member | corrected member |
|---|---|---|---|---|---|---|
| pkg/chessboard/chessboard.go:179-181 | intToPair puts n / 8 in the column and n % 8 in the row | n = 1 gives the square of index 8 | the inverse of pairToInt, row n / 8 and column n % 8 | high, not executed | Coords.IntToPairAsWrittenMisses | Coords.IntToPairRoundTrip |
| pkg/chessboard/chessboard.go:168-170 | sq reads the rank from '0' | "e1" gives row 1 and "e8" row 8, off the board | rank '1' is row 0, as in the rest of the program | high, not executed | Coords.SqAsWrittenMisses | Coords.SqRoundTrip |
| pkg/chessboard/chessboard.go:76-89 | pieceToChar gives both knights the king's letter | WKNIGHT and WKING both give 'K' | 'N' and 'n', the inverse of charToPiece | high, not executed | Pieces.PieceToCharAsWrittenCollides | Pieces.PieceCharRoundTrip |
| pkg/chessboard/chessboard.go:522 | getPiece tests `bb & (1 << n) == 1` | a piece on square 4 reads as empty | the bit test `!= 0` | high, not executed | Bitboards.BitAsWrittenMisses | Engine.Chessboard.GetPiece |
| pkg/chessboard/chessboard.go:397 | GetKingPosition tests `1 == (1 << i) \| bb` | a king on square 4 is not found | the bit test `bb & (1 << i) != 0` | high, not executed | Bitboards.KingTestAsWrittenMisses | Engine.Chessboard.GetKingPosition |
| pkg/chessboard/chessboard.go:749-756 | files are read from '`' and ranks from '0' | "a1" is b2 and "h8" is off the board | file 'a' and rank '1' are 0 | high, not executed | Execution.TokenSquareAsWrittenMisses | Execution.ParseMoveToken |
| pkg/chessboard/chessboard.go:739-757 | the length guard accepts five characters, and the sixth is then read | "0e2e4" passes the guard and index 5 is out of range | at least six characters | high, not executed | Execution.LengthGuardAsWrittenMisses | Execution.ParseToken |
| pkg/chessboard/chessboard.go:189-204 | the placement starts on row 0 and '/' increments the row | "8/k" puts the black king on a2 instead of a7 | the first rank of the field is rank 8, row 7 | high, not executed | Fen.PlacementAsWrittenMisses | Fen.PlacementRoundTrip |
| pkg/chessboard/chessboard.go:234-236 | the en-passant square is read from characters 1 and 2 | "e3" is read past its end | the file from character 0 and the rank from character 1 | high, not executed | Fen.EnPassantAsWrittenMisses | Fen.EnPassantRoundTrip |
| pkg/chessboard/chessboard.go:187-190 | CreateChessboard splits the constant initialFEN | any two arguments give the same position | split the argument | high, not executed | Fen.CreateChessboardAsWrittenIgnores | Fen.FenRoundTrip |
