# Chess rule engine of `main.cpp`, modelled in Dafny

This project models the rule engine of a small SFML chess program, lines 10-315 of `main.cpp`. It covers:

- the per-piece `isMoveValid` rules;
- the board queries `getPiece`, `isPathClear` and `isKingInCheck`;
- the move gate `ChessBoard::move`, which validates a move, simulates it, takes it back if it leaves the mover in check, and otherwise commits the capture, promotion and turn flip;
- the end-of-game classification `hasAnyLegalMoves` and `getGameStatus`;
- the starting position built by `setupBoard`.

The board is an immutable value: a map from squares to pieces, where an absent square is empty, plus the side to move. Every operation is a pure function. The source works on a mutable grid, placing a piece tentatively and taking it back afterwards. That simulate-and-revert is written out here as two board edits, `Trial` and `Restore`. A lemma shows that the restore gives back exactly the board the trial started from. `Move` and the legal-move search thread the restored board, just as the source keeps working on its reverted grid.

Modules, one per file:

| file | module | source |
|---|---|---|
| `types.dfy` | `ChessTypes` | colours, kinds, pieces, squares, the status enum |
| `board.dfy` | `Boards` | the grid, `getPiece`, trial and restore, `setupBoard` |
| `paths.dfy` | `Paths` | `isPathClear` |
| `rules.dfy` | `PieceRules` | the six `isMoveValid` overrides |
| `check.dfy` | `CheckDetection` | `isKingInCheck` |
| `game.dfy` | `Engine` | `move`, `hasAnyLegalMoves`, `getGameStatus` |
| `positions.dfy` | `Positions` | concrete positions that exercise all of the above |

## Behaviour as written

The model follows the code. It keeps the following behaviours even where the documented intent of the program differs.

- **Sliders accept the null move.** A rook, bishop or queen asked to move from a square to itself passes its shape test. The walk in `isPathClear` then never runs. `move` still rejects the null move, because the destination holds the mover itself (`Engine.MoveRejectsNullMove`). The legal-move search does consider it, as a trial that lifts the piece off the board.
- **`hasAnyLegalMoves` skips the own-colour destination test.**
  - `move` refuses to land on a piece of its own colour.
  - The search tries such a target anyway, as a "capture" of its own piece.
  - So a side with no acceptable move can still be reported ONGOING.
  - `Positions.OwnCaptureMasksMate` exhibits this. In its position White is in check and every `move` is rejected, but the king "capturing" its own pawn is found safe. In the same way, the fool's-mate position is not classified CHECKMATE.
- **A missing king is not an error.** When the king search finds no king of the colour, it settles on the sentinel square (-1, -1). Attackers are then tested against that square, so a position without a white king can report White in check (`Positions.SentinelCheck`). Between moves this never happens: `Engine.MoveKeepsPlay` shows that play from the starting position (`Positions.OpeningInPlay`) always keeps exactly one king of each colour. It does happen inside `hasAnyLegalMoves` whenever a trial lifts the king off the board.
- **With several kings the last row wins.** The `break` in the king search leaves only the column loop. The search therefore settles on the first king in the last row that holds one (`CheckDetection.LastKing`).
- **The promoted queen takes the pawn's colour.** The source reads that colour from the pawn after deleting it. The model uses the pawn's colour, which is what the code evidently means.
- **Sliders test the path twice.** `isKingInCheck` repeats the path test for sliders. The repeat is modelled, and it changes nothing.

## Model

| member | source | states |
|---|---|---|
| Boards.GetPiece | main.cpp:196-201 | an off-board square, the king-search sentinel among them, reads as empty |
| Boards.Trial | main.cpp:261-262 | the tentative placement leaves `from` empty, puts the mover on `to` and changes no other square or the turn |
| Boards.RestoreUndoesTrial | main.cpp:293-298 | putting back the recorded occupants of `from` and `to` after a trial yields exactly the original board, the null move included |
| Boards.InitialBoard | main.cpp:171-194 | the constructed board has White to move (line 104) and on every square exactly the piece `setupBoard` places there |
| Boards.InitialPosition | main.cpp:171-194 | in the starting position rows 2-5 are empty, rows 0-1 black and rows 6-7 white, rows 1 and 6 hold pawns, and there are exactly two kings, the black one on (0, 4) and the white one on (7, 4) |
| Paths.Walk | main.cpp:209-216 | the loop returns true exactly when every square it visits, from the current one up to but excluding `to`, is empty |
| Paths.IsPathClear | main.cpp:203-218 | for aligned squares the result is true exactly when every square strictly between the endpoints is empty |
| Paths.StepToward | main.cpp:205-210 | the unit step reaches `to` after exactly the Chebyshev distance in steps, and each step keeps the remaining squares aligned in the same direction, so the loop terminates |
| Paths.InteriorExcludesEndpoints | main.cpp:209-212 | the squares the walk inspects are never `from` or `to`, so the endpoints are never looked at |
| Paths.InteriorOnBoard | main.cpp:212 | the walk's unchecked grid read stays on the board, also when walking toward the sentinel (-1, -1) |
| PieceRules.PawnMoveValid | main.cpp:125-146 | valid exactly for a single push onto an empty square, a double push from the home row over two empty squares, or a diagonal step onto a piece of the other colour; never the null move; an occupied destination is valid only for a diagonal capture |
| PieceRules.KnightMoveValid | main.cpp:60-65 | valid exactly when the Chebyshev distance is 2 and the row and column offsets sum to 3; never the null move |
| PieceRules.KingMoveValid | main.cpp:89-94 | valid exactly when the Chebyshev distance is 1 |
| PieceRules.RookMoveValid | main.cpp:148-153 | valid exactly when on a common row or column with a clear path |
| PieceRules.BishopMoveValid | main.cpp:155-160 | valid exactly when on a common diagonal with a clear path |
| PieceRules.QueenMoveValid | main.cpp:162-169 | valid exactly when aligned with a clear path, that is, when a rook or a bishop could make the move |
| PieceRules.IsMoveValid | main.cpp:36 | a valid slider move is aligned with a clear path; the null move is valid exactly for the three sliders |
| PieceRules.ShapeDependsOnColoursOnly | main.cpp:125-169 | validity depends only on which squares are occupied and by which colour, not on the kinds of the other pieces |
| CheckDetection.FirstKingInRow | main.cpp:224-231 | the column loop stops at the first king of the colour in the row, or finds none |
| CheckDetection.KingFromRow | main.cpp:223-232 | after the row loop the carried square is the last-row king, or the sentinel when no row holds a king |
| CheckDetection.FindKing | main.cpp:222-232 | the search settles on the first king in the last row holding one, or on (-1, -1) when the colour has no king |
| CheckDetection.FindKingUnique | main.cpp:222-232 | with exactly one king of the colour, the search finds that king's square |
| CheckDetection.FindKingCongruent | main.cpp:222-232 | boards with kings of the colour on the same squares yield the same king square |
| CheckDetection.AttackScan | main.cpp:233-248 | from a square on in row-major order, the attacker loop succeeds exactly when some square there holds a piece of the other colour with a valid move onto the target |
| CheckDetection.IsKingInCheck | main.cpp:220-249 | in check exactly when some piece of the other colour has a valid move onto the square the king search settles on |
| CheckDetection.PawnAttacksDiagonally | main.cpp:131-144 | because the king's square is occupied, a pawn attacks it only from one forward diagonal step away |
| CheckDetection.CheckIgnoresOwnNonKing | main.cpp:220-249 | check does not change when one non-king piece of the checked colour is swapped for another |
| Engine.Commit | main.cpp:269-275 | the commit puts the promoted piece on `to`, flips the turn and changes no other square |
| Engine.Move | main.cpp:251-277 | accepted exactly when the side to move has a piece on `from` whose shape allows `to`, `to` holds none of its own pieces, and the trial leaves its king out of check; a rejected move returns the board unchanged, the undone trial included; an accepted one empties `from`, puts the mover on `to` (a queen of its colour for a pawn reaching row 0 or 7), changes nothing else and flips the turn |
| Engine.AcceptedMoveLeavesKingSafe | main.cpp:261-275 | after an accepted move, promotion included, the mover's king is not in check on the committed board |
| Engine.AnyTarget | main.cpp:287-301 | the target loops find a target exactly when some target from the cursor on is trial-legal, and every trial is taken back |
| Engine.AnyFrom | main.cpp:281-305 | the piece loops find a move exactly when some piece from the cursor on has a trial-legal target, and the board is unchanged afterwards |
| Engine.HasAnyLegalMoves | main.cpp:279-306 | the search returns the board unchanged and succeeds exactly when some piece of the colour has a shape-valid target whose trial leaves its king out of check, own-colour targets included |
| Engine.GetGameStatus | main.cpp:308-315 | ONGOING exactly when the search finds a move; otherwise CHECKMATE exactly when in check and STALEMATE exactly when not |
| Engine.TerminalStatusRejectsEveryMove | main.cpp:308-315 | once the status is CHECKMATE or STALEMATE, `move` rejects every move of the side to move |
| Engine.MoveKeepsPlay | main.cpp:251-277 | from a position with exactly one king of each colour and the side that just moved out of check, every call of `move`, accepted or rejected, leads to such a position again: the own-colour test at line 259 spares the mover's king, and the opponent's king cannot be taken because it was not in check |
| Engine.MoveRejectsNullMove | main.cpp:258-260 | `move` rejects moving any piece to its own square, sliders included |
| Engine.Feed | main.cpp:356-362 | one turn of the input loop hands the request to `move`; the count of accepted moves grows by at most one, and the side to move flips exactly when it grows, because a rejected move returns the board unchanged |
| Engine.Play | main.cpp:251-277 | over the first k requests fed to `move` one after another, at most k moves are accepted, and the side to move has flipped exactly once per accepted move |
| Engine.Replay | main.cpp:336-362 | the input loop, handing each request to `move` on the board the previous one left, ends on the same board and count as the fold `Play` over all the requests; it accepts at most one move per request, and the side to move at the end is the starting side exactly when an even number of moves was accepted |
| ChessTypes.FlipTimesParity | main.cpp:275 | after n flips the side to move is the starting side exactly when n is even |
| Positions.MateIsCheckmate | main.cpp:308-315 | with Black to move, a black king on (0, 0), a white queen on (1, 1) and the white king on (2, 2), the position is classified CHECKMATE |
| Positions.StaleIsStalemate | main.cpp:308-315 | with Black to move, a black king on (0, 0), a white queen on (2, 1) and the white king on (7, 7), the position is classified STALEMATE: the king is not in check and each of its three steps is covered |
| Positions.OwnCaptureMasksMate | main.cpp:279-315 | with White to move, the white king on (7, 0) and a white pawn on (6, 0) against a black rook on (7, 7), a black knight on (4, 2), a black pawn on (5, 0) and the black king on (0, 4), White is in check and `move` rejects every move, yet the position is classified ONGOING |
| Positions.MaskedSelfCaptureSafe | main.cpp:293-299 | in that position the trial of the white king onto its own pawn on (6, 0) leaves White out of check, which is the move the search finds |
| Positions.MaskedNoMoveAccepted | main.cpp:251-268 | in that position `move` rejects every move with an on-board destination |
| Positions.OpeningMove | main.cpp:251-277 | from the starting position e2-e4 is accepted, leaves the pawn on (4, 4) and gives the move to Black |
| Positions.OpeningInPlay | main.cpp:104-194 | the starting position has one king of each colour and Black, not to move, is not in check, so the invariant of `Engine.MoveKeepsPlay` holds from the first move on |
| Positions.OpeningOngoing | main.cpp:308-311 | the starting position is classified ONGOING |
| Positions.SentinelNoKing | main.cpp:222-232 | on a board holding only a black bishop on (3, 3), the search for the white king settles on (-1, -1) |
| Positions.SentinelCheck | main.cpp:220-249 | on a board holding only a black bishop on (3, 3), White is reported in check: the bishop's diagonal runs clear to the sentinel (-1, -1) |

## Left out

- `main()` (main.cpp:317-404) is not modelled: the SFML window, texture loading, the pixel-to-square mapping, drawing and console output. `Engine.Replay` stands in for its input loop as a plain sequence of requested moves. It leaves out the `getGameStatus` call after each accepted move, which changes nothing on the board. It also leaves out the message and window close on a CHECKMATE or STALEMATE status (lines 363-377), after which no request reaches `move`. `Engine.Replay` keeps feeding requests instead, but `Engine.TerminalStatusRejectsEveryMove` shows that `move` rejects every one of them, so the board stays the same.
- `getSymbol` and the per-class `symbol` characters are left out. They are cosmetic and never read by the rules.
- Raw-pointer ownership is left out: `new`/`delete`, `memset` and the destructor. Cells hold piece values, so deleting a captured piece needs no counterpart.
- The colour and kind strings (`"white"`, `"rook"`, ...) become enumerations. Every string comparison in the core is an equality test on one of those closed sets.
- Engine.Move: requires the destination to be on the board. The source writes the grid at `to` without a bounds check (line 261). Its caller does not bound `to` either: the input loop divides the button-release coordinates by 80 with no range check (lines 356-361). So a drag released outside the window can pass, say, row 8. A rook on row 7 accepts that shape at once, and line 261 then writes outside the grid. The model leaves out that out-of-bounds write. An off-board `from` needs no such requirement and is rejected as an empty square, as in the source.
- Engine.Replay: requires every requested destination to be on the board, for the same reason as `Engine.Move`.
- Paths.IsPathClear: requires the endpoints to be aligned. Every caller checks alignment first, and for unaligned endpoints the source loop would walk off the grid without ending.
