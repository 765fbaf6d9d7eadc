# Chess rules engine, modelled in Dafny

This project models a small chess rules engine. Its source has two variants:

- `chess_lib/src/lib.rs` is the library engine.
- `chess_lib/src/main.rs` is an older standalone variant of it.

## How the engine works

- **The board.** A board is 64 optional pieces, one per square. Square `row*8 + column` puts row 0 on White's back rank and column 0 on file `a`.
- **Making a move.** `make_move` is the only operation that changes the board. It empties the source slot and writes the old occupant to the destination, so a capture is just an overwrite.
- **Pseudo-legal moves.** `get_possible_moves` looks at the piece type and calls that piece's generator:
  - king and knight step through a fixed table of eight offsets;
  - rook, bishop and queen scan rays until the first occupied square;
  - the pawn uses a four-entry offset table that depends on the colour it is generated for.
- **Which colour counts as "own".** Every generator excludes squares that hold a piece of the colour passed in. That colour is not necessarily the colour of the moving piece.
- **Legality.** `legal_move` tests a move without changing the game:
  1. it clones the game and plays the move on the clone;
  2. it finds the mover's king (the last one in square order, or square 0 if there is none);
  3. it rejects the move if any opposing piece, with moves generated for the opponent, can reach that square.
- **Checkmate.** `checkmate` is true exactly when the side to move has no move that passes `legal_move`.
- **Turns.** `change_player` hands the turn to the other side.

## How the model is organised

- Each generator is a pure specification function in `MoveRules`, plus lemmas stating what it returns.
- The loops of the source are methods that are proved to return exactly those functions:
  - the shared generator loops are in `MoveGen`;
  - each variant's `Game` class is in `Engine` or `Legacy`.
- Each `Game` class keeps its board as a 64-slot array. Only `MakeMove` writes to it, and only `ChangePlayer` writes the player.
- `Positions` works through small positions: the pieces of the starting position that cannot move, a king stepping next to an enemy rook, the legal knight move showing that the starting position is not checkmate, and a back-rank mate.
- `LegalMove`, `LegalMovesFrom` and `Checkmate` have no `modifies` clause, so they provably leave the game as it was. The copy `LegalMove` plays on is a freshly allocated `Game`.
- The main.rs copies of `square_to_row_column`, `row_column_to_square` and `convert_row_column_to_output` (chess_lib/src/main.rs:728-749, 801-824) are identical to the library's. They are modelled once, in `Coordinates`.

## Model

| member | source | states |
|---|---|---|
| Coordinates.SquareToRowColumn | chess_lib/src/lib.rs:1018-1023 | the pair (row, column) has column < 8 and row*8+column equal to the square; it is on the board exactly when the square is below 64; `RowColumnToSquare` maps it back to the square |
| Coordinates.RowColumnToSquare | chess_lib/src/lib.rs:1025-1039 | the row-0 special case gives the same value as row*8+column; for a column below 8 the result is below 64 exactly when the pair is on the board |
| Coordinates.RowColumnRoundTrip | chess_lib/src/lib.rs:1018-1039 | for every on-board pair, converting to a square and back gives the pair again, so the two conversions are a bijection between [0,63] and [0,7]² |
| Coordinates.ConversionExample | chess_lib/src/lib.rs:1204-1208 | square 10 is row 1, column 2 |
| Coordinates.ConvertRowColumnToOutput | chess_lib/src/lib.rs:1091-1114 | the rank is row+1; columns 0..7 become the letters 'a'..'h', which parse back to the same column; any other column gives a blank letter that parses to nothing |
| Coordinates.ParseFile | chess_lib/src/lib.rs:1056-1070 | a letter maps to column k exactly when it is the k-th of "abcdefgh"; any other character maps to nothing |
| Coordinates.ParseSquare | chess_lib/src/lib.rs:1053-1086 | the character-to-coordinate step of reading a square: a file letter a..h as the first character gives its column, and a missing or other first character leaves the column 0; a digit '1'..'9' as the second character gives the row digit-1, and a missing or non-digit second character leaves the row 0; the digit '0' is the only input with no result, because subtracting 1 from it underflows; a result is a column below 8 and a row at most 8 |
| Coordinates.ParseSquareReadsTwoCharacters | chess_lib/src/lib.rs:1053-1086 | characters after the second have no effect on the square read |
| Coordinates.OutputParsesBack | chess_lib/src/lib.rs:1091-1114 | reading back the letter and digit printed for an on-board (row, column) gives that (row, column) |
| Pieces.Opponent | chess_lib/src/lib.rs:967-974 | the other player differs from the given one and moves the other colour |
| Pieces.OpponentInvolution | chess_lib/src/lib.rs:967-974 | changing turns twice gives the turn back |
| Pieces.ApplyMove | chess_lib/src/lib.rs:296-302 | after a move the destination holds the old occupant of the source; the source is empty unless it is also the destination; every other square is unchanged |
| MoveRules.Target | chess_lib/src/lib.rs:416-427 | a signed step that passes the bounds test lands on an on-board square, at the source plus the offset |
| MoveRules.OnBoardTargets | chess_lib/src/lib.rs:416-427 | the first pass of the king and knight generators keeps only on-board squares, and no more squares than the table has |
| MoveRules.KeepEnterable | chess_lib/src/lib.rs:429-460 | the second pass keeps only squares that do not hold a piece of the colour passed in |
| MoveRules.KeepEnterableMembers | chess_lib/src/lib.rs:429-460 | the second pass keeps exactly the candidates that do not hold a piece of the colour passed in |
| MoveRules.StepMoves | chess_lib/src/lib.rs:394-538 | every king or knight destination is on the board and does not hold a piece of the colour passed in |
| MoveRules.OnBoardTargetsMembers | chess_lib/src/lib.rs:416-427 | the first pass yields exactly the on-board squares that some table offset reaches from the source |
| MoveRules.StepMovesExact | chess_lib/src/lib.rs:394-538 | a square is a king or knight destination exactly when one of the eight offsets reaches it, it is on the board, and it does not hold a piece of the colour passed in |
| MoveRules.Ray | chess_lib/src/lib.rs:553-586 | every square of one ray scan is on the board and does not hold a piece of the colour passed in |
| MoveRules.SlidingMoves | chess_lib/src/lib.rs:541-693 | every rook, bishop or queen destination is on the board and does not hold a piece of the colour passed in |
| MoveRules.RayIsContiguous | chess_lib/src/lib.rs:555-584 | the k-th square of a ray lies exactly k steps along the direction from the ray's first square |
| MoveRules.RayIsAhead | chess_lib/src/lib.rs:555-584 | no square of a ray lies behind its first square in the scan direction |
| MoveRules.RayStopsAtFirstPiece | chess_lib/src/lib.rs:557-584 | every square of a ray except possibly the last is empty, so nothing beyond the first occupied square is ever included |
| MoveRules.RayIsMaximal | chess_lib/src/lib.rs:557-584 | a ray that is empty, or whose last square is empty, ends because the next square is off the board or holds a piece of the colour passed in; a scan never stops early |
| MoveRules.SlidingMovesMembers | chess_lib/src/lib.rs:541-693 | the sliding destinations are exactly the union of the rays in the piece's directions (4 orthogonal for the rook, 4 diagonal for the bishop, all 8 for the queen) |
| MoveRules.SlidingMovesAvoidSource | chess_lib/src/lib.rs:553-586 | a rook, bishop or queen never has its own square as a destination |
| MoveRules.PawnTargets | chess_lib/src/lib.rs:721-770 | every square the pawn loop collects is on the board |
| MoveRules.PawnMoves | chess_lib/src/lib.rs:696-776 | every pawn destination is on the board |
| MoveRules.PawnTargetsMembers | chess_lib/src/lib.rs:721-770 | the pawn loop collects exactly the targets of the table entries whose test passes |
| MoveRules.PawnMovesShape | chess_lib/src/lib.rs:701-770 | a pawn destination differs from the source and moves toward the far side (White +1, or +2 from row 1; Black -1 or -2); a change of column lands only on a piece not of the colour passed in; a straight step lands only on an empty square; the column changes by at most one |
| MoveRules.PawnMovesComplete | chess_lib/src/lib.rs:721-770 | every table entry whose test passes yields a destination |
| MoveRules.BlackDoubleStepFromAnyRow | chess_lib/src/lib.rs:705-708 | the Black (-2, 0) entry fails the two-row test and falls into the straight-step branch, so a Black pawn on any row steps two rows onto an empty square |
| MoveRules.WhiteDoubleStepJumps | chess_lib/src/lib.rs:749-774 | White's two-row step from row 1 needs only an empty target; the square in between is not checked |
| MoveRules.DirectionTables | chess_lib/src/lib.rs:545-652 | each ray table holds only unit directions, so every ray scan ends |
| MoveRules.PossibleMoves | chess_lib/src/lib.rs:318-392 | the dispatch on piece type returns only on-board squares |
| MoveRules.PossibleMovesSound | chess_lib/src/lib.rs:318-392 | an empty square has no destinations; every destination is on the board, differs from the source, and does not hold a piece of the colour the flag selects |
| MoveGen.OffsetMoves | chess_lib/src/lib.rs:394-464 | the two loops of the king and knight generators return exactly `StepMoves` for the given table and colour |
| MoveGen.RayMoves | chess_lib/src/lib.rs:541-590 | the direction loop of the rook, bishop and queen generators returns exactly `SlidingMoves`: the concatenation of one scan per direction, in table order |
| MoveGen.ScanRay | chess_lib/src/lib.rs:555-586 | the `while` scan of one direction, with its two early exits, returns exactly `Ray` from its starting square |
| Legality.KingSquareBelow | chess_lib/src/lib.rs:793-823 | the king search always yields a square below 64 |
| Legality.KingSquareIsLastKing | chess_lib/src/lib.rs:793-823 | the king search yields the last square in index order holding a king of the colour, or 0 when there is none |
| Legality.LegalMeansKingSafe | chess_lib/src/lib.rs:778-867 | when the mover's king is found on square `king` after the move, the move is legal exactly when no opposing piece reaches `king` with moves generated for the opponent |
| Legality.LegalFilter | chess_lib/src/lib.rs:215-230 | the filter returns no more moves than it is given, and all of them are on the board |
| Legality.LegalFilterKeepsOrder | chess_lib/src/lib.rs:215-230 | what the filter returns is a subsequence of the candidates: it only drops moves and keeps the rest in their order |
| Legality.LegalFilterMembers | chess_lib/src/lib.rs:215-230 | the filter keeps exactly the candidates for which the legality check passes |
| Legality.LegalMovesAtEmpty | chess_lib/src/lib.rs:915-944 | one square adds nothing to the collected list exactly when it does not hold a piece of the side to move with a pseudo-legal move that passes the legality check |
| Legality.HasLegalMoveBelowExists | chess_lib/src/lib.rs:912-951 | "some square below n has a legal move" is exactly the existence of such a square |
| Legality.LegalMovesBelowEmpty | chess_lib/src/lib.rs:909-953 | the collected list of legal moves is empty exactly when no own piece has a pseudo-legal move that passes the legality check |
| Engine.InitialCountsBelow | chess_lib/src/lib.rs:70-104 | counted square by square, the starting position has White's pieces on squares 0-15 and Black's on 48-63 |
| Engine.InitialPosition | chess_lib/src/lib.rs:70-104 | the starting position has 16 White and 16 Black pieces and empty squares 16-47; each side has exactly one king, White's on square 4 and Black's on 60 |
| Engine.KnightTargetsFromSquareOne | chess_lib/src/lib.rs:473-501 | from square 1 exactly three of the knight's eight offsets stay on the board: (2,0), (2,2) and (1,3), in table order |
| Engine.OpeningKnightMoves | chess_lib/src/lib.rs:467-538 | in the starting position the knight on square 1 has exactly the destinations (2,0) and (2,2) |
| Engine.OpeningPawnMoves | chess_lib/src/lib.rs:696-776 | in the starting position the pawn on square 12 has exactly its single step (2,4) and double step (3,4) |
| Engine.OpeningRookMoves | chess_lib/src/lib.rs:541-590 | in the starting position the rook on square 0 has no destinations |
| Engine.PlaceBackRank | chess_lib/src/lib.rs:77-84 | the eight writes put R, N, B, Q, K, B, N, R of the colour on the eight squares from `base` and change no other square; `NewBoard` uses it for White's rank at base 0 and for Black's at base 56 (chess_lib/src/lib.rs:90-97) |
| Engine.NewBoard | chess_lib/src/lib.rs:70-104 | a new 64-slot array holding the starting position |
| Engine.Game.constructor | chess_lib/src/lib.rs:125-140 | a new game has the starting position, White to move, and the state InProgress |
| Engine.Game.Clone | chess_lib/src/lib.rs:113-119 | a copy has a new board array with the same 64 slots, and the same player and state |
| Engine.Game.GetGameState | chess_lib/src/lib.rs:310-312 | returns the recorded state; it is InProgress in a new game and no operation of the model changes it (`ChangePlayer` and `MakeMove` both keep it) |
| Engine.Game.WhoseTurn | chess_lib/src/lib.rs:962-965 | returns the side to move; it is White in a new game, the other side after each `ChangePlayer`, and unchanged by `MakeMove` |
| Engine.Game.ChangePlayer | chess_lib/src/lib.rs:967-974 | the turn passes to the other player; the state is kept |
| Engine.Game.MakeMove | chess_lib/src/lib.rs:296-302 | the board afterwards is `ApplyMove` of the board before: only the two named slots can change; the side to move and the state are kept |
| Engine.Game.PossibleMovesKing | chess_lib/src/lib.rs:394-464 | the king's destinations are `StepMoves` over the king table, for the colour passed in |
| Engine.Game.PossibleMovesKnight | chess_lib/src/lib.rs:467-538 | the knight's destinations are `StepMoves` over the knight table, for the colour passed in |
| Engine.Game.PossibleMovesRook | chess_lib/src/lib.rs:541-590 | the rook's destinations are the rays in the four orthogonal directions |
| Engine.Game.PossibleMovesBishop | chess_lib/src/lib.rs:592-641 | the bishop's destinations are the rays in the four diagonal directions |
| Engine.Game.PossibleMovesQueen | chess_lib/src/lib.rs:644-693 | the queen's destinations are the rays in all eight directions, orthogonal first |
| Engine.Game.PossibleMovesPawn | chess_lib/src/lib.rs:696-776 | the loop over the colour's four offsets returns exactly `PawnMoves` |
| Engine.Game.GetPossibleMoves | chess_lib/src/lib.rs:318-392 | the result is `PossibleMoves` of the board; an empty square gives none; every destination is on the board, differs from the source, and does not hold a piece of the colour the flag selects |
| Engine.Game.FindKing | chess_lib/src/lib.rs:793-823 | the scan returns the king square of the colour: the last one in index order, or 0 |
| Engine.Game.KingAttacked | chess_lib/src/lib.rs:825-865 | the result is true exactly when some piece not of the colour, with moves generated for the opposite side, reaches the given square |
| Engine.Game.LegalMove | chess_lib/src/lib.rs:778-867 | the result is exactly `IsLegal`: after the move on a copy, no opposing piece reaches the mover's king square; the game itself is not modified |
| Engine.Game.LegalMovesFrom | chess_lib/src/lib.rs:215-230 | the result is the side to move's pseudo-legal moves from the square, kept in order, and contains exactly those that pass the legality check |
| Engine.Game.Checkmate | chess_lib/src/lib.rs:869-960 | the result is true exactly when no square holds a piece of the side to move with a pseudo-legal move that passes the legality check; it is also true in stalemate; the game is not modified |
| Positions.SurroundedSliderIsStuck | chess_lib/src/lib.rs:541-693 | a rook, bishop or queen whose row and neighbouring rows are full of the colour passed in has no destination, since every ray stops on its first square |
| Positions.OwnTargetsDropped | chess_lib/src/lib.rs:429-460 | when every candidate holds a piece of the colour passed in, the second pass keeps none |
| Positions.SurroundedKingIsStuck | chess_lib/src/lib.rs:394-464 | a king whose row and neighbouring rows are full of the colour passed in has no destination |
| Positions.InitialBackRanksSurrounded | chess_lib/src/lib.rs:70-104 | in the starting position every back-rank square has only its own side on its row and the next row |
| Positions.OpeningKingMoves | chess_lib/src/lib.rs:394-464 | in the starting position the king on square 4 has no destinations |
| Positions.OpeningBishopMoves | chess_lib/src/lib.rs:592-641 | in the starting position the bishop on square 2 has no destinations |
| Positions.OpeningQueenMoves | chess_lib/src/lib.rs:644-693 | in the starting position the queen on square 3 has no destinations |
| Positions.RayDownReachesRowZero | chess_lib/src/lib.rs:555-586 | a downward scan over empty squares reaches, and includes, a piece not of the colour passed in on row 0 |
| Positions.RookReachesDownFile | chess_lib/src/lib.rs:541-590 | a rook on row 7 has the row-0 square of its column as a destination when that square holds a piece not of the colour passed in and the squares between are empty |
| Positions.RookReachesB1 | chess_lib/src/lib.rs:318-392 | with the White king moved from a1 to b1, the Black rook on b8 has b1 as a destination |
| Positions.KingCannotStepOntoRookFile | chess_lib/src/lib.rs:778-867 | with a White king on a1 and a Black rook on b8, the king's step to b1 fails the legality check |
| Positions.RookStaysOnLines | chess_lib/src/lib.rs:541-590 | every rook destination shares the rook's row or its column |
| Positions.RookMissesA2 | chess_lib/src/lib.rs:318-392 | with the White king moved from a1 to a2, no destination of the Black rook on b8 is a2 |
| Positions.KingMayStepOffRookFile | chess_lib/src/lib.rs:778-867 | with a White king on a1 and a Black rook on b8, the king's step to a2 passes the legality check |
| Positions.KingMayStepWithoutRook | chess_lib/src/lib.rs:778-867 | on the same board without the rook, the king's step from a1 to b1 passes the legality check |
| Positions.BlackMovesStayHigh | chess_lib/src/lib.rs:318-392 | while Black's two ranks are as in the starting position, no piece on them has a destination below row 4 |
| Positions.InitialNotCheckmate | chess_lib/src/lib.rs:869-960 | in the starting position White has a move that passes the legality check (the knight from b1 to c3), so the checkmate test is false there |
| Positions.RayLeftReaches | chess_lib/src/lib.rs:555-586 | a leftward scan along row 0 over empty squares reaches, and includes, a piece not of the colour passed in |
| Positions.RookOnH1Checks | chess_lib/src/lib.rs:778-867 | a White move after which White's last king stands on row 0 with only empty squares between it and a Black rook on h1 fails the legality check |
| Positions.MatedKingHasNoLegalMove | chess_lib/src/lib.rs:778-867 | in the back-rank mate position (king a1, pawns a2 and b2, Black rook h1) no destination of the king passes the legality check |
| Positions.MatedPawnHasNoLegalMove | chess_lib/src/lib.rs:778-867 | in the back-rank mate position no destination of either pawn passes the legality check |
| Positions.BackRankMateIsCheckmate | chess_lib/src/lib.rs:869-960 | in the back-rank mate position White has no move that passes the legality check, so the checkmate test is true there |
| Legacy.LegacyInitialBoardDiffers | chess_lib/src/main.rs:63-100 | this variant's starting position equals the library's except on squares 59 and 60, where the Black king and queen are exchanged; the kings stand on 4 and 59 |
| Legacy.LegacyPossibleMoves | chess_lib/src/main.rs:278-353 | the dispatch of this variant returns only on-board squares |
| Legacy.LegacyAgreesWithEngine | chess_lib/src/main.rs:278-353 | a pawn has no destinations; every other piece has the library's destinations, generated for the side to move |
| Legacy.LegacyMovesSound | chess_lib/src/main.rs:278-353 | an empty square has no destinations; every destination is on the board, differs from the source, and does not hold a piece of the side to move, whatever the moving piece's colour |
| Legacy.PlaceLegacyBlackBackRank | chess_lib/src/main.rs:85-92 | the eight writes put R, N, B, K, Q, B, N, R on squares 56-63 and change no other square |
| Legacy.LegacyNewBoard | chess_lib/src/main.rs:63-100 | a new 64-slot array holding this variant's starting position |
| Legacy.Game.constructor | chess_lib/src/main.rs:115-129 | a new game has this variant's starting position, White to move, and the state InProgress |
| Legacy.Game.GetGameState | chess_lib/src/main.rs:270-272 | returns the recorded state; it is InProgress in a new game and no operation of the model changes it |
| Legacy.Game.WhoseTurn | chess_lib/src/main.rs:683-685 | returns the side to move; it is White in a new game, the other side after each `ChangePlayer`, and unchanged by `MakeMove`; this variant's generators use its colour as the "own" colour |
| Legacy.Game.ChangePlayer | chess_lib/src/main.rs:687-694 | the turn passes to the other player; the state is kept |
| Legacy.Game.MakeMove | chess_lib/src/main.rs:256-262 | the board afterwards is `ApplyMove` of the board before; the side to move and the state are kept |
| Legacy.Game.PossibleMovesKing | chess_lib/src/main.rs:355-431 | `StepMoves` over the king table, for the colour of the side to move |
| Legacy.Game.PossibleMovesKnight | chess_lib/src/main.rs:434-509 | `StepMoves` over the knight table, for the colour of the side to move |
| Legacy.Game.PossibleMovesRook | chess_lib/src/main.rs:512-567 | the orthogonal rays, for the colour of the side to move |
| Legacy.Game.PossibleMovesBishop | chess_lib/src/main.rs:569-624 | the diagonal rays, for the colour of the side to move |
| Legacy.Game.PossibleMovesQueen | chess_lib/src/main.rs:627-681 | all eight rays, for the colour of the side to move |
| Legacy.Game.GetPossibleMoves | chess_lib/src/main.rs:278-353 | the result is `LegacyPossibleMoves`; an empty square or a pawn gives none; every destination is on the board, differs from the source, and does not hold a piece of the side to move |

## Left out

- Reading from standard input is not modelled. This covers the prompts of `from` and `to` (chess_lib/src/lib.rs:152-292, chess_lib/src/main.rs:133-253), which can loop forever on bad input, and the line reading of `convert_input_to_row_column`. Only the mapping from characters to a coordinate is modelled, as `ParseSquare`. Only the legality filtering step of `to` is modelled, as `LegalMovesFrom`.
- Both `main` driver loops, the `fmt::Debug` board rendering and every `println!` are output only and are not modelled.
- `set_promotion` does nothing in the source. `get_game` and `get_board` only hand out the game or board. The `Check` state is never set. None of these is modelled beyond the `GameState` datatype and `GetGameState`.
- `checkmate` runs a king search whose result it never uses. That search has no effect and is not modelled.
- Castling, en passant and promotion do not exist in the source, so they do not exist in the model.
- The two pawn quirks are kept as written and stated as lemmas: Black's two-row step from any row, and the unchecked square in between.
- `Checkmate` does not separate checkmate from stalemate, exactly as the source does not.
- Coordinates.RowColumnToSquare: uses unbounded integers, so it does not model the u32 overflow of `row*8 + column` for huge rows (a panic in a debug build, a wrap-around in a release build). Every caller passes coordinates below 8.
- Coordinates.ParseSquare: models the underflow of `number - 1` on the digit '0' as an absent result rather than as a panic or a wrapped value.
- Engine.Game.MakeMove: requires both squares below 64. The source panics on an out-of-range index instead.
- Legacy.Game.MakeMove: requires both squares below 64. The source panics on an out-of-range index instead.
- Engine.Game.GetPossibleMoves: requires the square below 64. The source panics when it indexes the board with a larger square (chess_lib/src/lib.rs:335).
- Legacy.Game.GetPossibleMoves: requires the square below 64. The source panics when it indexes the board with a larger square (chess_lib/src/main.rs:289).
- Engine.Game.LegalMovesFrom: requires the square below 64, for the same reason as `GetPossibleMoves`, whose result it filters.
- Engine.Game.LegalMove: requires both squares on the board. In the source a row of 8 or more gives a square of 64 or more, and `make_move` on the copy then panics (chess_lib/src/lib.rs:298). A column of 8 or more that still gives a square below 64 is not caught: `row_column_to_square` silently turns it into a square of a later row (chess_lib/src/lib.rs:1029-1036). The model does not cover either case.
- The i32 casts in the generators are modelled with signed integers plus the source's own bounds test. Nothing wraps within the board's range.
