# Santorini rules engine and the PlayerDPC1 helpers

This project models the rules engine of the `santorinai` package, the `Board` class of
`santorinai/board.py`. The board is a 5x5 grid of tower heights (0 to 3, 4 for a
terminated tower). It holds `2n` pawns for `n` players, with player 1 owning pawns `1`
and `n + 1`, player 2 owning pawns `2` and `n + 2`, and so on. It also keeps the turn
bookkeeping: whose turn it is, the turn number and the winner. Pawns are first placed
one by one (`place_pawn`). After that, each turn moves one pawn to an adjacent cell at
most one level higher and then builds one level on a cell adjacent to the new position
(`play_move`). A pawn that moves onto a level-3 tower wins. A play after which nobody
can move, or after which the next player cannot move, also ends the game.

The project also models the example AI player `PlayerDPC1` of
`santorinai/player_examples/dpc_ai_1.py`:

- its read-only helpers: the ally pawn, the enemy pawns, the winning moves, and the sum
  of heights under the player's own pawns;
- its `play_move`. That method numbers every (pawn, move, build) play of the player,
  plays each on a copy of the board, records the height sum, and then returns
  `(None, None)`.

Layout, one Dafny module per file:

- `wrappers.dfy` (`Wrappers`): the `Option` type; Python's `None` for positions, pawns
  and winners.
- `positions.dfy` (`Positions`): cells, `is_position_within_board` and
  `is_position_adjacent`.
- `pawns.dfy` (`Pawns`): the pawn record and the numbering of `Board.__init__`.
- `rules.dfy` (`Rules`): the board value `State`, its invariant `ValidState`, and the
  check chains of `is_move_possible` and `is_build_possible`.
- `enumeration.dfy` (`Enumeration`): the three `get_possible_*` enumerations as
  functions that follow the loops of `board.py`, and what they contain.
- `transaction.dfy` (`Transaction`): the pawn lookups, `next_turn`, `is_game_over`, and
  `place_pawn` and `play_move` as functions from the old board value to the new one
  plus the reported outcome, and what these transactions preserve and change.
- `board.dfy` (`GameBoard`): the class `Board` with the mutable fields of `board.py`. Each
  method is proved to compute the function above that states its rule, through the
  snapshot `Model()`.
- `dpc_ai.dfy` (`DpcAi`): the specification of the AI's helpers and of its
  `play_move` loops, and the class `PlayerDPC1` whose methods are proved against them.

`play_move` in dpc_ai_1.py computes one height sum per play and chooses nothing.

The answers `(bool, message)` of `board.py` become datatypes: one constructor per message that typed positions can produce
(`Verdict` for the legality checks, `Rejection` and `Success` for the transactions).

## Model

| member | source | states |
|---|---|---|
| Positions.InBoard | santorinai/board.py:121-132 | `is_position_within_board`: both coordinates in `0..4`. This is a definition. |
| Positions.Adjacent | santorinai/board.py:147-149 | Two cells are adjacent exactly when their Chebyshev distance is 1. A cell is never adjacent to itself. |
| Positions.AdjacentSymmetric | santorinai/board.py:147-149 | Adjacency is symmetric. |
| Pawns.PawnAssignment | santorinai/board.py:51-54 | With `n` players, pawn `k <= n` is the first pawn (order 1) of player `k`. Pawn `k > n` is the second pawn (order 2) of player `k - n`. This is the closed form of `(k-1) % n + 1` and `(k-1) // n + 1`. |
| Pawns.OwnedPawns | santorinai/board.py:51-54 | Player `p` owns exactly pawns `p` and `p + n`, with orders 1 and 2. |
| Pawns.InitialPawns | santorinai/board.py:51-54 | `Board(n)` creates `2n` unplaced pawns, each owned by a player in `1..n`. |
| Pawns.NewPawn | santorinai/board.py:52-54 | Pawn `k` is created unplaced, with number `k`, an owner in `1..n` and an order of 1 or 2. |
| Rules.EmptyGrid | santorinai/board.py:57-60 | The initial grid is 5x5 with every height 0. |
| Rules.PawnOn | santorinai/board.py:151-164 | `is_pawn_on_position`: some pawn stands on the cell. This is a definition; IsPawnOnPosition computes it with its search loop. |
| Rules.InitialState | santorinai/board.py:29-72 | A new board for `n` players satisfies the board invariant (a well-formed grid, pawn `k` at index `k - 1` with its owner and order, no two pawns on one cell). Player 1 is to move on turn 1, there is no winner, every height is 0 and every pawn is unplaced. |
| Rules.MoveVerdict | santorinai/board.py:89-119 | The move is possible exactly when both cells are on the board, distinct, adjacent, the target is no dome, at most one level higher, and free. Each refusal (off the board, same cell, dome, too high, too far, occupied) is given exactly when its check is the first to fail in that order. |
| Rules.BuildVerdict | santorinai/board.py:181-204 | The build is possible exactly when both cells are on the board, distinct, adjacent, and the target is neither a dome nor occupied. Each refusal (off the board, same cell, dome, too far, occupied) is given exactly when its check is the first to fail in that order. No height difference is checked, so a build is never refused as too high. |
| Enumeration.RowScanMembers | santorinai/board.py:296-306 | The inner neighbour loop keeps exactly the accepted cells of its row, skipping the pawn's own cell. |
| Enumeration.RowScanIncreasing | santorinai/board.py:296-306 | The inner loop lists its cells in increasing `y`, so without repeats. |
| Enumeration.RowScanLength | santorinai/board.py:296-306 | The inner loop lists at most three cells, and at most two on the pawn's own row. |
| Enumeration.RingScanMembers | santorinai/board.py:295-306 | The two neighbour loops keep exactly the accepted cells of the 3x3 box around the pawn, other than its own cell. |
| Enumeration.RingScanIncreasing | santorinai/board.py:295-306 | The neighbour loops list cells in row-major order, without repeats. |
| Enumeration.RingScanLength | santorinai/board.py:295-306 | The neighbour loops list at most eight cells. |
| Enumeration.NeighboursContents | santorinai/board.py:295-308 | The neighbour scan lists exactly the accepted adjacent cells, at most eight, in row-major order without repeats. |
| Enumeration.ColumnScanContents | santorinai/board.py:289-291 | One column of the placement scan lists exactly its cells that are neither a dome nor occupied, in increasing `y`. |
| Enumeration.BoardScanContents | santorinai/board.py:287-292 | The placement scan lists exactly the board cells that are neither a dome nor occupied, column by column, without repeats. |
| Enumeration.MoveScan | santorinai/board.py:295-308 | The scan with `is_move_possible` lists exactly the legal moves, at most eight, without repeats. |
| Enumeration.BuildScan | santorinai/board.py:327-337 | The scan with `is_build_possible` lists exactly the legal builds, at most eight, without repeats. |
| Enumeration.MovementPositionsSpec | santorinai/board.py:272-308 | For a placed pawn: exactly the legal moves, at most eight. For an unplaced pawn: exactly the cells that are neither a dome nor occupied. In both cases all on the board, in scan order, without repeats. |
| Enumeration.BuildingPositionsSpec | santorinai/board.py:310-337 | For a placed pawn: exactly the legal builds, at most eight, in scan order. For an unplaced pawn: nothing. |
| Enumeration.PairsAfterContents | santorinai/board.py:356-360 | The loop over the moves lists `(m, b)` exactly when `m` is one of the moves and `b` is a building position of the pawn once moved to `m`. |
| Enumeration.MovesAndBuildsSpec | santorinai/board.py:339-365 | For a placed pawn, `(m, b)` is listed exactly when moving to `m` is legal and building on `b` is legal with the pawn standing on `m` (its old cell counting as free). For an unplaced pawn, exactly the free placement cells, each paired with `None`. |
| Enumeration.MovementPositions | santorinai/board.py:272-308 | `get_possible_movement_positions`, with the loops of `board.py`. This is a definition; its contents are stated in MovementPositionsSpec. |
| Enumeration.BuildingPositions | santorinai/board.py:310-337 | `get_possible_building_positions`, with the loops of `board.py`. This is a definition; its contents are stated in BuildingPositionsSpec. |
| Enumeration.MovesAndBuilds | santorinai/board.py:339-365 | `get_possible_movement_and_building_positions`. This is a definition; its contents are stated in MovesAndBuildsSpec. |
| Transaction.PlayerPawnsMembers | santorinai/board.py:216-221 | `get_player_pawns` keeps exactly the board's pawns owned by the player. |
| Transaction.PlayerPawns | santorinai/board.py:206-221 | `get_player_pawns`: the player's pawns in board order. This is a definition; its contents are stated in PlayerPawnsMembers and TwoPawnsEach. |
| Transaction.TwoPawnsEach | santorinai/board.py:206-221 | On a valid board, `get_player_pawns(p)` is exactly pawn `p` (order 1) followed by pawn `p + n` (order 2). |
| Transaction.PlayerPawn | santorinai/board.py:223-235 | `get_player_pawn(p, 1)` is pawn `p` and `get_player_pawn(p, 2)` is pawn `p + n`. The result is owned by `p` and has the requested order. |
| Transaction.PlayingPawn | santorinai/board.py:237-254 | `get_playing_pawn` answers `None` exactly when the number is not 1 or 2. Otherwise it gives the board's pawn of the player to move with that order. |
| Transaction.FirstUnplacedSpec | santorinai/board.py:256-270 | `get_first_unplaced_player_pawn` is `None` exactly when all the player's pawns are placed. Otherwise it is the player's first unplaced pawn in board order. |
| Transaction.FirstUnplacedOnBoard | santorinai/board.py:256-270 | On a valid board, the unplaced pawn found is the board's pawn with that number, unplaced and owned by the player. |
| Transaction.FirstUnplaced | santorinai/board.py:256-270 | `get_first_unplaced_player_pawn`: the first pawn in board order that the player owns and has not placed. This is a definition; its meaning is stated in FirstUnplacedSpec. |
| Transaction.TurnsCycle | santorinai/board.py:596-598 | `next_turn` cycles through players `1..n`. After `k <= n` steps the turn is `t + k` wrapped into `1..n`, and it comes back to `t` after `n` steps and not before. |
| Transaction.AfterTurnsState | santorinai/board.py:592-600 | `k` calls of `next_turn` add exactly `k` to the turn number, advance the player by `k` steps, and change nothing else. |
| Transaction.AdvanceTurn | santorinai/board.py:592-600 | `next_turn`: the next player, wrapping from `n` to 1, and one more turn. This is a definition; its cycle is stated in TurnsCycle and AfterTurnsState. |
| Transaction.EveryoneStuck | santorinai/board.py:579-590 | `is_everyone_stuck`: no pawn on the board has a movement position. This is a definition; its role in a play is stated in EndOfPlayEffects. |
| Transaction.GameOver | santorinai/board.py:566-577 | `is_game_over`: there is a winner or everyone is stuck. This is a definition; PlaceEffects and PlayRefusal state what it blocks. |
| Transaction.PlayerStuck | santorinai/board.py:498-504 | The check in `play_move` that none of a player's pawns has a movement position. This is a definition; EndOfPlayEffects states its role. |
| Transaction.Raise | santorinai/board.py:489 | The build raises the built cell by exactly one level and leaves every other cell alone. Since a dome is never built on, heights stay within `0..4`. |
| Transaction.Place | santorinai/board.py:367-402 | A refused `place_pawn` leaves the board unchanged. An accepted one reports a placed pawn and leaves the grid alone. Its full effect is stated in PlaceEffects. |
| Transaction.PositionValid | santorinai/board.py:535-564 | `is_position_valid`: a position is valid exactly when it is present and on the board. This is a definition; PlayAccepts and MoveThenBuildEffects state its use. |
| Transaction.PositionCheck | santorinai/board.py:535-564 | The refusal of `is_position_valid`: none exactly when the position is valid, "not a tuple" exactly when it is missing, and "not within the board bounds" exactly when it is present but off the board. |
| Transaction.PlayRefusal | santorinai/board.py:423-452 | `play_move` passes its checks before the move exactly when all of these hold: the pawn number is 1 or 2, the player to move has placed both pawns, the game is not over, the pawn has a movement position, and the move cell is on the board. |
| Transaction.Play | santorinai/board.py:404-510 | A refused play leaves the whole board unchanged, including the reversed move. An accepted play never reports a placement. Every play keeps the board invariant: heights in `0..4`, no two pawns on one cell, turn and winner in range. |
| Transaction.MoveThenBuild | santorinai/board.py:454-510 | The move and build phase refuses without changing the board, never reports a placement, and keeps the board invariant. |
| Transaction.EndOfPlay | santorinai/board.py:491-510 | After a build, `play_move` always reports success, and never as a placement or as reaching the top. |
| Transaction.MoveKeepsValid | santorinai/board.py:459-461 | Moving a pawn onto a free board cell keeps the board invariant. |
| Transaction.AdvanceKeepsValid | santorinai/board.py:592-600 | `next_turn` keeps the player to move within `1..n`. |
| Transaction.PlaceKeepsValid | santorinai/board.py:367-402 | `place_pawn` keeps the board invariant. |
| Transaction.PlaceEffects | santorinai/board.py:367-402 | `place_pawn` succeeds exactly when the game is not over, the player to move has an unplaced pawn, and the cell is on the board and free. It then puts that player's first unplaced pawn there, passes the turn, and adds one to the turn number. The grid and the winner stay the same. A refusal changes nothing. |
| Transaction.EndOfPlayEffects | santorinai/board.py:491-510 | The end of a play never touches the grid or the pawns. It reports that nobody can play exactly when every pawn is stuck; the turn then does not pass and the mover wins. It reports that the next player is stuck exactly when not everyone is stuck and, after the turn passes, the next player has no movable pawn; the mover then wins. It reports a plain move exactly when neither check fires; the turn then passes once and the winner is unchanged. |
| Transaction.MoveThenBuildEffects | santorinai/board.py:454-510 | An accepted play made a legal move of the pawn and changed no other pawn. It reports reaching the top exactly when the target was level 3, and in that case the mover's player wins and nothing else changes. Otherwise the build was legal from the new cell and exactly that cell rose by one. On the built board, "nobody can play" is reported exactly when everyone is stuck, "next player stuck" exactly when not everyone is stuck and the next player has no movable pawn, and a plain move exactly when neither holds. Only a plain move passes the turn without declaring the mover the winner. |
| Transaction.BuildBranchEffects | santorinai/board.py:479-510 | After a legal move and an accepted build: the board invariant holds and only the built cell rose by one. "Nobody can play" is reported exactly when everyone is stuck on the built board, "next player stuck" exactly when not everyone is stuck and the next player cannot move, and a plain move exactly when neither holds. A plain move leaves the winner unchanged; the two stuck outcomes make the mover the winner. |
| Transaction.BuildPhaseEffects | santorinai/board.py:468-510 | After a legal move below level 3 and a legal build, `play_move` goes on to the end-of-play checks on the built board. Its outcome and new board are the ones those checks give: the same three iff clauses, the raised cell, the moved pawn and the winner. |
| Transaction.BuiltEffects | santorinai/board.py:488-489 | Building on a non-dome cell after a legal move keeps the board invariant and raises exactly that cell by one. |
| Transaction.BuildBranchValid | santorinai/board.py:479-510 | After a legal move and an accepted build, the board left by the end-of-play checks satisfies the board invariant. |
| Transaction.PlayEffects | santorinai/board.py:423-510 | An accepted `play_move` never reports a placement. It had the pawn number 1 or 2 and the game not over, with every pawn of the player to move placed. The playing pawn made a legal move and no other pawn moved. Any winner it declares is the player who moved, and after a plain move there is still no winner. |
| Transaction.MoveThenBuildAccepts | santorinai/board.py:454-489 | The move and build phase accepts exactly the legal plays: a legal move, then, unless the target was level 3, a build present and legal from the new cell. |
| Transaction.PlayAccepts | santorinai/board.py:404-510 | `play_move` accepts exactly when none of its checks before the move fails and the playing pawn's move and build are legal, the build being needed only when the move does not reach level 3. |
| Transaction.BuildBackOnVacatedCell | santorinai/board.py:476-477 | After a legal move, building back on the vacated cell is legal. This is the claim of the comment in `play_move`, which holds unless the vacated cell is a dome: only `place_pawn`, which has no dome check, can put a pawn on one. |
| Transaction.BuildPositionRefusals | santorinai/board.py:468-474 | After a legal move below level 3, a missing build position is refused as not a tuple and an off-board one as out of bounds; either way the move is reversed and the board is unchanged. |
| GameBoard.Board.constructor | santorinai/board.py:29-72 | `Board(n)` holds the initial board value, which satisfies the board invariant. |
| GameBoard.Board.IsPawnOnPosition | santorinai/board.py:151-164 | Answers true exactly when some pawn stands on the cell. |
| GameBoard.Board.IsMovePossible | santorinai/board.py:74-119 | Returns the verdict of the move check chain. |
| GameBoard.Board.IsBuildPossible | santorinai/board.py:166-204 | Returns the verdict of the build check chain. |
| GameBoard.Board.GetPlayerPawns | santorinai/board.py:206-221 | Returns the player's pawns in board order. |
| GameBoard.Board.GetPlayerPawn | santorinai/board.py:223-235 | Returns pawn `p` for order 1 and pawn `p + n` for order 2, owned by `p` with the requested order. |
| GameBoard.Board.GetPlayingPawn | santorinai/board.py:237-254 | Returns the playing pawn, or `None` for a pawn number other than 1 or 2. |
| GameBoard.Board.GetFirstUnplacedPlayerPawn | santorinai/board.py:256-270 | Returns the player's first unplaced pawn, or `None`. |
| GameBoard.Board.GetPossibleMovementPositions | santorinai/board.py:272-308 | Returns the movement enumeration of the pawn. |
| GameBoard.Board.GetPossibleBuildingPositions | santorinai/board.py:310-337 | Returns the building enumeration of the pawn. |
| GameBoard.Board.FreeCells | santorinai/board.py:287-292 | The nested placement loops return the column-by-column scan of free cells. |
| GameBoard.Board.NeighbourScan | santorinai/board.py:295-308 | The nested neighbour loops return the neighbour scan. |
| GameBoard.Board.NeighbourRow | santorinai/board.py:296-306 | The inner neighbour loop returns one row of the scan. |
| GameBoard.Board.Accepted | santorinai/board.py:303-305 | The loop's test is the move (or build) check answering possible. |
| GameBoard.Board.IsEveryoneStuck | santorinai/board.py:579-590 | Answers true exactly when no pawn has a movement position. |
| GameBoard.Board.IsGameOver | santorinai/board.py:566-577 | Answers true exactly when there is a winner or everyone is stuck. |
| GameBoard.Board.NextTurn | santorinai/board.py:592-600 | Passes the turn to the next player and adds one to the turn number. |
| GameBoard.Board.GetPossibleMovementAndBuildingPositions | santorinai/board.py:339-365 | Returns the (move, build) enumeration, and leaves the board as it found it, with the pawn back on its cell. |
| GameBoard.Board.BuildsAfterMoves | santorinai/board.py:356-360 | The loop over the moves lists the pairs of each move in turn, and moves only the pawn's cell. |
| GameBoard.Board.MoveAndListBuilds | santorinai/board.py:357-360 | Moves the pawn and lists its builds from there, each paired with the move. |
| GameBoard.MoveBack | santorinai/board.py:362-363 | Moving the pawn back to its original cell restores the pawn list. |
| GameBoard.Board.PlacePawn | santorinai/board.py:367-402 | Computes `place_pawn` on the board's value and keeps the board invariant. |
| GameBoard.Board.PlayMove | santorinai/board.py:404-510 | Computes `play_move` on the board's value and keeps the board invariant. |
| GameBoard.Board.CheckPlay | santorinai/board.py:423-452 | Runs the checks before the move in the order of `board.py` and returns the first refusal. When all pass, it also returns the playing pawn, placed and on the board. |
| GameBoard.Board.MoveThenBuildOnBoard | santorinai/board.py:454-466 | Performs the move phase: refuses an illegal move, or moves the pawn and declares the win on a level-3 tower. |
| GameBoard.Board.BuildOrUndo | santorinai/board.py:468-489 | Builds, or reverses the move when the build position is invalid or the build is refused. |
| GameBoard.Board.EndPlay | santorinai/board.py:491-510 | Performs the stuck checks and the turn change after the build. |
| GameBoard.Board.AllStuck | santorinai/board.py:500-504 | Answers true exactly when no pawn of the list has a movement position. |
| GameBoard.Board.Copy | santorinai/board.py:602-625 | Returns a fresh board holding the same value. |
| DpcAi.AllyFrom | santorinai/player_examples/dpc_ai_1.py:24-30 | Returns `None` exactly when no other pawn of the same owner exists. Otherwise it returns the first such pawn in board order. |
| DpcAi.AllyInGame | santorinai/player_examples/dpc_ai_1.py:24-30 | On a valid board the ally of pawn `k` is the owner's other pawn, `k + n` or `k - n`. |
| DpcAi.EnemiesSplit | santorinai/player_examples/dpc_ai_1.py:32-37 | The enemies are exactly the pawns of other owners. Together with the owner's pawns they account for every pawn. |
| DpcAi.EnemiesInGame | santorinai/player_examples/dpc_ai_1.py:32-37 | In an `n`-player game every pawn has `2n - 2` enemies. |
| DpcAi.Enemies | santorinai/player_examples/dpc_ai_1.py:32-37 | `get_enemy_pawns`: the pawns of other owners, in board order. This is a definition; EnemiesSplit and EnemiesInGame state its contents. |
| DpcAi.AtTopContents | santorinai/player_examples/dpc_ai_1.py:42-44 | The filter keeps exactly the level-3 cells, in their original order. |
| DpcAi.WinningMoves | santorinai/player_examples/dpc_ai_1.py:39-46 | `get_winning_moves`: the movement positions on a level-3 tower. This is a definition; AtTopContents and WinningMoveWins state its meaning. |
| DpcAi.WinningMoveWins | santorinai/player_examples/dpc_ai_1.py:39-46 | In the play phase, playing a winning move of a pawn of the player to move reports reaching the top and makes that player the winner, whatever the build. |
| DpcAi.HeightSum | santorinai/player_examples/dpc_ai_1.py:108-111 | The sum is defined exactly when every pawn is placed, and is then between 0 and 4 per pawn. |
| DpcAi.HeightSumOfPlayer | santorinai/player_examples/dpc_ai_1.py:108-111 | With both pawns placed, the player's sum is the plain sum of the heights under their two pawns. |
| DpcAi.OwnHeightSum | santorinai/player_examples/dpc_ai_1.py:99-111 | `get_pawns_added_heights`: the height sum under the player's pawns, or the `TypeError` of an unplaced pawn. This is a definition; HeightSumOfPlayer states its value. |
| DpcAi.Evaluation | santorinai/player_examples/dpc_ai_1.py:83-87 | One evaluation: the play on a copy of the board, then the height sum there. This is a definition; EvaluationDefined states that it never raises in the play phase. |
| DpcAi.RunPlays | santorinai/player_examples/dpc_ai_1.py:79-88 | The inner loop over one pawn's plays. This is a definition; RunPlaysShape and PlaysCrashPersists state its shape. |
| DpcAi.RunPawns | santorinai/player_examples/dpc_ai_1.py:75-90 | The outer loop over the player's pawns, with `start = id + 1` after each. This is a definition; RunIds, CrashPersists and PlayPhaseRun state its result. |
| DpcAi.AiRun | santorinai/player_examples/dpc_ai_1.py:67-96 | `play_move` of the AI on a board value. This is a definition; AiRunInPlayPhase states its result. |
| DpcAi.Catalogue | santorinai/player_examples/dpc_ai_1.py:75-90 | The ids every play receives, pawn after pawn. This is a definition; CataloguePrefix and CatalogueNumbering state its numbering. |
| DpcAi.RunPlaysShape | santorinai/player_examples/dpc_ai_1.py:79-88 | The inner loop either keeps a crash it started from, raises on an unplaced pawn, or appends the pawn's tagged plays to the ids. |
| DpcAi.RunIds | santorinai/player_examples/dpc_ai_1.py:75-90 | When `play_move` does not raise, ids `0, 1, 2, ...` go to the plays of the player's pawns, pawn after pawn, in enumeration order. |
| DpcAi.CataloguePrefix | santorinai/player_examples/dpc_ai_1.py:75-90 | The ids of the first pawns are a prefix of all the ids. |
| DpcAi.CatalogueNumbering | santorinai/player_examples/dpc_ai_1.py:79-80 | Play `t` of the pawn at position `j` has id `c + t`, where `c` counts the plays of the pawns before it. That entry holds the pawn's number and that (move, build) pair. |
| DpcAi.CrashPersists | santorinai/player_examples/dpc_ai_1.py:75-90 | Once the outer loop has raised, that exception is the outcome of `play_move`. |
| DpcAi.PlaysCrashPersists | santorinai/player_examples/dpc_ai_1.py:79-88 | Once the inner loop has raised, that exception is its outcome. |
| DpcAi.UnboundExactly | santorinai/player_examples/dpc_ai_1.py:90 | `start = id + 1` raises for an unbound `id` exactly when the first pawn has no play. |
| DpcAi.EvaluationDefined | santorinai/player_examples/dpc_ai_1.py:83-87 | Once the player's pawns are placed, the height sum on the played copy never raises, whatever the play. |
| DpcAi.PlaysNoTypeError | santorinai/player_examples/dpc_ai_1.py:79-88 | Once the player's pawns are placed, the inner loop never raises a `TypeError`. |
| DpcAi.PawnsNoTypeError | santorinai/player_examples/dpc_ai_1.py:75-90 | Once the player's pawns are placed, the outer loop never raises a `TypeError`. |
| DpcAi.PlayPhaseRun | santorinai/player_examples/dpc_ai_1.py:75-90 | Once the player's pawns are placed, the loops finish without raising exactly when the first pawn has a play. |
| DpcAi.AiRunInPlayPhase | santorinai/player_examples/dpc_ai_1.py:67-96 | In the play phase, `play_move` returns exactly when the player's first pawn has a (move, build) pair. It has then numbered every play of both pawns consecutively. |
| DpcAi.PlayerDPC1.constructor | santorinai/player_examples/dpc_ai_1.py:18-19 | The player keeps its player number. |
| DpcAi.PlayerDPC1.GetAllyPawn | santorinai/player_examples/dpc_ai_1.py:24-30 | Returns the first ally in board order, or `None`. |
| DpcAi.PlayerDPC1.GetEnemyPawns | santorinai/player_examples/dpc_ai_1.py:32-37 | Returns the enemies in board order. |
| DpcAi.PlayerDPC1.GetWinningMoves | santorinai/player_examples/dpc_ai_1.py:39-46 | Returns the level-3 cells among the pawn's movement positions, in order. |
| DpcAi.PlayerDPC1.GetPawnsAddedHeights | santorinai/player_examples/dpc_ai_1.py:99-111 | Returns the height sum under the player's pawns, or `None` for the `TypeError` an unplaced pawn causes. |
| DpcAi.PlayerDPC1.PlayMove | santorinai/player_examples/dpc_ai_1.py:67-96 | Leaves the board unchanged. It raises what the loops raise; otherwise it answers `(None, None)` with the ids and the shared height sum the loops computed. |
| DpcAi.PlayerDPC1.PlayPawns | santorinai/player_examples/dpc_ai_1.py:75-90 | The outer loop computes the run over the player's pawns and leaves the board unchanged. |
| DpcAi.PlayerDPC1.PlayPawn | santorinai/player_examples/dpc_ai_1.py:76-90 | One pawn of the outer loop: its plays, then `start = id + 1`. It extends the run by that pawn, or reports the exception. |
| DpcAi.PlayerDPC1.EvaluatePlays | santorinai/player_examples/dpc_ai_1.py:79-88 | The inner loop numbers and evaluates each play on a fresh copy of the board, and computes the inner run. |

## Left out

- `PlayerDPC1.place_pawn` (dpc_ai_1.py:48-65): its choice comes from `random.choice`. Its guard also sends the case of an already placed ally to the random branch, so the only deterministic path is effectively unreachable.
- `PlayerDPC1.name`, the `log_level` argument and the `Player` base class (`santorinai/player.py` is not part of this model): they hold no logic.
- The evaluation matrix placeholder `x=1` (dpc_ai_1.py:93) does nothing.
- `dic_plays` and `dic_play_eval` are not kept as dictionaries. Every id's entry of `dic_play_eval` is the same shared dictionary, so the model keeps its one `sum_height` value.
- `Board.play_move_simple` (board.py:512-532): an unchecked helper that nothing in the modelled code calls.
- `Board.__repr__` (board.py:627-648): text rendering only.
- The `isinstance` checks of `play_move` and `is_position_valid` (board.py:424, 548-558): positions are typed pairs of integers, so the refusals for a wrong number of coordinates and for non-integer coordinates cannot arise. A missing build position is `None`, which `is_position_valid` refuses because it is not a tuple; that refusal has its own constructor, `NotATuple`.
- `santorinai/pawn.py` is not part of this model. A pawn is a record (number, order, owner, position) inferred from its uses. `pawn.move(p)` and `pawn.pos = p` set the position, and `pawn.copy()` is a value copy.
- Pawn objects are shared between `Board.pawns` and the lists the lookups return. The model keeps the pawns in a sequence in which pawn `k` sits at index `k - 1`, and a pawn `board.py` mutates in place is updated at its index.
- `copy.deepcopy` in the AI's `play_move` is modelled by `Board.Copy`, which holds the same value.
- The numpy and pandas imports and the example match script: no logic.
- `Board(n)` is modelled for `n >= 1` only. With no players, `board.py` builds a board without pawns whose `next_turn` never settles on a valid player.
- GameBoard.Board.GetPlayerPawn: requires a pawn number of 1 or 2, as its docstring says. Python's negative-index wrap-around for other numbers is not modelled.
- `is_game_over` returns `None` when the game is not over. The model reads that as `false`, which is how every caller uses it.
- `nb_pawns` and `board_size` are not fields: they are always `2n` and 5.
- The AI passes the pawn's unique number to `Board.play_move`, which accepts only 1 or 2. The model passes it on literally, so plays of pawns numbered above 2 are refused on the copy and evaluated on an unchanged board.
- DpcAi.PlaysOn: the specification gives no plays for a pawn that is not one of the board's own pawns. `play_move` only ever asks about the board's own pawns.
