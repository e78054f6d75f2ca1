# zerosumrs in Dafny

This project models the game engines of zerosumrs, a Rust collection of two-player zero-sum games and the search engines that play them.

**Games.** Each game keeps its position in a small bit-packed struct:
- tic-tac-toe;
- mancala;
- othello;
- a first 9x9 Tablut;
- Tablut with draw by repetition.

Every game answers the same interface:
- whose turn it is;
- the legal moves, and the moves in the order the engines try them;
- the state of the game (Win, Lose, Draw or Going, from the first player's side);
- a heuristic score;
- a move, and its undo.

Some games undo with a token that `mov_with_rollback` returns and `rollback` consumes. The others push onto an undo stack that `rollback` pops.

**Engines.** All four are fail-hard alpha-beta searches deepened iteratively until the clock runs out:
- the plain engine (`minimax_simple`);
- an engine with a transposition table (`minimax_hard`);
- an engine that keeps its search tree between moves (`minimax_final`);
- an engine for Tablut with draws, with its own evaluation and move statistics (`minimax_tablut`).

**Modules.**
- `Games` (game.dfy): the game interface, as a record of functions with laws, and the reference minimax value every engine is proved against.
- `Sorting` and `Words`: the sorts and the 64-bit bit-boards the games use.
- One module per game (tictactoe.dfy, mancala.dfy, othello.dfy, tablut.dfy, tablut_with_draw.dfy). Each states the rules on a value `Pos` and proves a class that keeps the source's packed representation against them.
- One module per engine (minimax_simple.dfy, minimax_hard.dfy, minimax_final.dfy, minimax_tablut.dfy). Each engine is a class whose fields are the engine struct's fields and whose methods are its loops.

**Modelling choices.**
- Every integer is unbounded. Where the source relies on a fixed width, the model writes the wrap-around out: u8 cells and counters, u32 turn counters and 64-bit words. i64 negation wraps only in MinimaxHard.Neg64 and the as-written members of the findings. The sort keys and indices the engines use are exact (see Left out).
- The clock is an oracle: `tl(k)` is the answer of the k-th reading of "the time is up".

## Model

| member | source | states |
|---|---|---|
| Games.Minimax | src/minimax_simple.rs:16-43 | Defines the reference value: the heuristic when decided or at depth 0, else the maximum (when turn() holds) or minimum of the sorted children's values one level down, an empty maximum being i64::MIN and an empty minimum i64::MAX |
| Games.Window | src/minimax_simple.rs:16-43 | Defines the fail-hard contract of an answer r for the window (a, b) and the true value v: r is v when a < v < b, at most a when v <= a, at least b when v >= b |
| Games.Best | src/minimax_simple.rs:54-66 | Defines the index of the first strictly best of the first k sorted moves; it lies below k |
| Games.RootChoice | src/minimax_simple.rs:44-77 | Defines the root answer: the first strictly best sorted move by the reference value one level deeper |
| Games.MinimaxInRange | src/minimax_simple.rs:16-43 | Under the game laws, the reference depth-limited minimax value of a valid position is an i64 |
| Games.MinimaxBounded | src/minimax_simple.rs:16-43 | When every heuristic lies in [lo, hi] and every position still going has a move, every reference value lies in [lo, hi] |
| Games.MaxOverBounds | src/minimax_simple.rs:31-33 | The running maximum over children bounds every child's value and is attained by one of them (or is i64::MIN) |
| Games.MinOverBounds | src/minimax_simple.rs:34-36 | The running minimum over children bounds every child's value from below and is attained by one of them (or is i64::MAX) |
| Games.MaxStep | src/minimax_simple.rs:31-40 | One child of a max node keeps a equal to max(a0, maximum of the children so far) until a reaches b; then the whole maximum is at least b |
| Games.MinStep | src/minimax_simple.rs:34-40 | One child of a min node keeps b equal to min(b0, minimum of the children so far) until b reaches a; then the whole minimum is at most a |
| Games.WindowExact | src/minimax_simple.rs:54-65 | A fail-hard answer for a window open on the far side moves the running bound exactly as the true value would |
| Games.BestIsFirst | src/minimax_simple.rs:54-66 | The chosen index is a first strictly best child: no child is better and every earlier child is worse |
| Games.BestKept | src/minimax_simple.rs:50-70 | Later children that are not strictly better leave the choice unchanged |
| Games.RootStep | src/minimax_simple.rs:54-66 | Replacing the answer only on a strictly better value keeps it on the first best child, with res equal to that child's value |
| Games.RootCut | src/minimax_simple.rs:67-69 | A root loop cut off because the best so far is already the extreme i64 settles on the same child as the full loop |
| Games.RootChoiceBest | src/minimax_simple.rs:44-77 | The root choice is the first strictly best sorted move, and its value is the reference value of the position one level deeper |
| Games.FirstBestValue | src/minimax_simple.rs:44-77 | Any first strictly best root move has the position's reference value |
| Games.WidestWindow | src/minimax_simple.rs:45-46 | With the window (i64::MIN, i64::MAX), a fail-hard answer that is an i64 is exact |
| Sorting.SortByKey | src/othello.rs:112-116 | The sort used for sort_by_key and sort_unstable_by_key returns a permutation of its input, with the keys in non-decreasing order |
| Sorting.KeyedSorted | src/minimax_hard.rs:25-38 | sort_by_cached_key: after sorting, each (key, element) pair still holds an element of the input with its own key |
| Sorting.FirstsPerm | src/minimax_final.rs:64-65 | Permuting (move, subtree) pairs permutes the moves |
| Words.BitsInjective | src/othello.rs:21 | A u64 board word is determined by its 64 bits |
| Words.SetBitBits | src/othello.rs:26-29 | `w \| 1 << p` sets bit p and no other bit |
| Words.FlipBitBits | src/othello.rs:30-32 | `w ^ 1 << p` flips bit p and no other bit |
| Words.FullWord | src/othello.rs:121 | `board.0 != u64::MAX` exactly when some cell is empty |
| Tictactoe.Moves | src/tictactoe.rs:21-29 | Defines get_moves: the empty cells, scanned from 0 to 8 |
| Tictactoe.StateOf | src/tictactoe.rs:36-73 | Defines state: the first complete line in the source's order decides, Win when it holds the first player's marks and Lose otherwise; with none, Going while a cell is empty, else Draw |
| Tictactoe.MovSpec | src/tictactoe.rs:74-77 | Defines mov: the mover's mark on m and the turn flipped |
| Tictactoe.RollbackSpec | src/tictactoe.rs:82-85 | Defines rollback: cell r emptied and the turn flipped back |
| Tictactoe.MovesFrom | src/tictactoe.rs:21-29 | get_moves returns exactly the empty cells, in strictly ascending order |
| Tictactoe.StateFrom | src/tictactoe.rs:36-73 | Win/Lose only when some line holds three of the first (other) player's marks; Draw or Going exactly when no line is complete; Draw only on a full board, Going only when a cell is empty |
| Tictactoe.NoMovesNotGoing | src/tictactoe.rs:21-73 | A position without moves is never Going |
| Tictactoe.RoundTrip | src/tictactoe.rs:74-85 | rollback(m) after a move onto an empty cell m restores the position |
| Tictactoe.MovChangesOnlyM | src/tictactoe.rs:74-77 | mov writes the mover's mark on m, changes no other cell and passes the turn |
| Tictactoe.Board.constructor | src/tictactoe.rs:12-17 | new(t): nine empty cells and turn t |
| Tictactoe.Board.Mov | src/tictactoe.rs:74-77 | The array after mov is the move's specification applied to the old position |
| Tictactoe.Board.MovWithRollback | src/tictactoe.rs:78-81 | mov_with_rollback plays the move and returns the cell as token |
| Tictactoe.Board.Rollback | src/tictactoe.rs:82-85 | rollback empties the cell and passes the turn back |
| Tictactoe.InstanceLawful | src/tictactoe.rs:8-86 | Tic-tac-toe satisfies the token-game laws that the engines require |
| Mancala.Moves | src/mancala.rs:24-44 | Defines get_moves: the non-empty cells of the mover's range, scanned downwards |
| Mancala.StateOf | src/mancala.rs:48-66 | Defines state: when one side's pits hold no stones (u8 sums), Win, Lose or Draw by comparing each side's pits plus store; otherwise Win when store 6 holds more than 24, Lose when store 13 does, else Going |
| Mancala.MovSpec | src/mancala.rs:85-108 | Defines mov: sow, capture, push the undo record, pass the turn unless the last stone lands in the mover's store. Its result is a valid position |
| Mancala.RollbackSpec | src/mancala.rs:109-136 | Defines rollback: pop the record, find the landing pit, undo the capture, take the sown stones back, refill the moved pit, and give the turn to the pit's owner. Its result is a valid position |
| Mancala.PitsDown | src/mancala.rs:24-44 | The mover's moves are exactly the non-empty pits of their range, in strictly descending order |
| Mancala.MovesAreOwn | src/mancala.rs:24-44 | Every move is a non-empty cell of the mover's range, never store 6 |
| Mancala.HeuristicBounds | src/mancala.rs:67-81 | The heuristic is 32768 exactly on Win and -32768 exactly on Lose, and otherwise lies between them |
| Mancala.GoingHasMoves | src/mancala.rs:24-66 | A position still Going has a move |
| Mancala.SowConserves | src/mancala.rs:90-97 | Sowing x stones adds exactly x stones to the board and never touches the skipped store, when no cell wraps |
| Mancala.MovConserves | src/mancala.rs:85-108 | mov conserves the number of stones when no cell wraps |
| Mancala.CaptureConserves | src/mancala.rs:98-103 | The capture moves stones and conserves their number |
| Mancala.MovSkipsOpponentStore | src/mancala.rs:92-94 | A move never drops a stone in the opponent's store |
| Mancala.UnsowSow | src/mancala.rs:114-135 | Rollback's walk back along the sown pits returns the board and the index that came before the sowing |
| Mancala.CaptureRoundTrip | src/mancala.rs:98-103 | Rollback's capture undo (lines 121-124) restores the board that came before the capture |
| Mancala.RoundTrip | src/mancala.rs:85-136 | rollback after mov by the player to move restores the position, stack included |
| Mancala.Board.constructor | src/mancala.rs:14-20 | new(t): four stones in every pit, empty stores, an empty stack |
| Mancala.Board.Sow | src/mancala.rs:87-97 | The sowing loop computes the sowing function |
| Mancala.Board.CaptureM | src/mancala.rs:98-103 | The capture step computes the capture function and reports whether it captured |
| Mancala.Board.Mov | src/mancala.rs:85-108 | mov updates the array, the turn and the stack as the move specification says |
| Mancala.Board.Land | src/mancala.rs:111-120 | rollback's first loop finds the pit where the sowing ended |
| Mancala.Board.Unsow | src/mancala.rs:125-134 | rollback's second loop takes the sown stones back |
| Mancala.Board.Rollback | src/mancala.rs:109-136 | rollback pops the stack and restores the position as the rollback specification says |
| Mancala.InstanceLawful | src/mancala.rs:11-137 | Mancala satisfies the stack-game laws |
| Othello.Moves | src/othello.rs:93-111 | Defines get_moves: the legal cells in ascending order, or the pass 64 when none is legal |
| Othello.StateOf | src/othello.rs:120-130 | Defines state: Going while a cell is empty and fewer than two passes were made; otherwise Lose, Draw or Win as the first player's colour bits are below, at or above 32 |
| Othello.MovSpec | src/othello.rs:131-144 | Defines mov: a cell move reverses every reversable direction and adds the mover's piece; the pass 64 counts the pass in a wrapping u8. The turn always passes |
| Othello.RollbackAsWritten | src/othello.rs:150-156 | Defines rollback as written: the board words restored, the turn flipped, a nonzero pass counter decremented whatever the move was |
| Othello.RollbackSpec | src/othello.rs:150-156 | Defines the corrected rollback: the board restored from the token and the turn passed back; the pass counter steps back only when the undone move was the pass |
| Othello.MapcUnmapc | src/othello.rs:68-73 | unmapc(mapc(x, y)) == (x, y) on the board |
| Othello.UnmapcMapc | src/othello.rs:68-73 | mapc(unmapc(p)) == p for every cell |
| Othello.MapcShift | src/othello.rs:68-70 | `(y << 3) \| x` is y*8 + x |
| Othello.Start | src/othello.rs:78-89 | new(t): the four centre pieces, the first player's on cells 27 and 36 |
| Othello.ReversableIff | src/othello.rs:40-56 | reversable holds exactly when a run of at least one opposing piece is closed by one of the mover's own |
| Othello.FlipRunEffect | src/othello.rs:58-66 | reverse flips only opposing pieces to the mover's colour |
| Othello.ApplyDirsEffect | src/othello.rs:134-138 | Reversing every reversable direction flips only opposing pieces |
| Othello.MovEffect | src/othello.rs:131-144 | A move onto an empty cell occupies it with the mover's colour and changes no other occupancy. It flips only opposing pieces, keeps colours inside occupancy and passes the turn |
| Othello.PassEffect | src/othello.rs:140-143 | The pass move counts the pass in a wrapping u8 and passes the turn |
| Othello.RoundTripAsWritten | src/othello.rs:150-156 | As written, undo restores the position exactly when the undone move was a pass from a counter other than 255, or no pass had been made |
| Othello.PassLostAsWritten | src/othello.rs:150-156 | As written, a move after one pass, undone, leaves the pass counter at 0 |
| Othello.RoundTrip | src/othello.rs:145-156 | The corrected rollback restores the position after every move, pass included |
| Othello.AnyDirIff | src/othello.rs:98-103 | The direction loop finds a reversable direction exactly when one exists |
| Othello.LegalIff | src/othello.rs:97-103 | A cell is legal exactly when it is empty and some direction is reversable |
| Othello.MovesSpec | src/othello.rs:93-111 | get_moves returns the legal cells in ascending order, or the pass 64 exactly when none is legal |
| Othello.MovesOnBoard | src/othello.rs:93-111 | Every move is the pass or an empty cell |
| Othello.MovesSorted | src/othello.rs:112-116 | get_moves_sorted is a permutation of get_moves, heaviest cells first, and the pass stays alone |
| Othello.FullBoardState | src/othello.rs:120-130 | On a full board, Win, Draw and Lose exactly when the first player has more, as many or fewer pieces |
| Othello.Board.constructor | src/othello.rs:78-89 | The words after new are those of the start position |
| Othello.Board.AddPieceM | src/othello.rs:26-29 | add_piece sets occupancy and colour of the cell |
| Othello.Board.Flip | src/othello.rs:30-32 | flip toggles the colour of the cell |
| Othello.Board.HasPiece | src/othello.rs:33-35 | has_piece reads the occupancy bit |
| Othello.Board.GetPiece | src/othello.rs:36-38 | get_piece reads the colour bit |
| Othello.Board.IsReversable | src/othello.rs:40-56 | The loop computes the reversable predicate of the rules |
| Othello.Board.Reverse | src/othello.rs:58-66 | The loop flips the run that the rules flip |
| Othello.Board.GetMoves | src/othello.rs:93-111 | The nested loops compute the moves of the rules |
| Othello.Board.GetMovesSorted | src/othello.rs:112-116 | The result is the sorted moves of the rules |
| Othello.Board.Mov | src/othello.rs:131-144 | mov updates the words, turn and pass as the rules do |
| Othello.Board.MovWithRollback | src/othello.rs:145-149 | The token is the board before the move |
| Othello.Board.Rollback | src/othello.rs:150-156 | The class uses the corrected rollback |
| Othello.InstanceLawful | src/othello.rs:74-157 | Othello, with the corrected rollback, satisfies the token-game laws |
| Tablut.Captured | src/tablut.rs:173-186 | Defines captured, as written: the defenders take an attacker held against a defender, king or block; the attackers take a defender held against a defender (as written) or block, or a king surrounded on four sides |
| Tablut.CaptureChecks | src/tablut.rs:361-372 | Defines mov's four capture checks in mov's order (below, above, right, left of m.1), each under its board-edge guard and reading the board the earlier ones left, every success emptying m.1 + 9 as written |
| Tablut.MovSpec | src/tablut.rs:357-375 | Defines mov: the board pushed on the undo stack, the piece moved, m.1 + 9 emptied when a check succeeds, the turn passed |
| Tablut.Step | src/tablut.rs:219-327 | Defines one cell of get_moves's scans: a piece of the side to move becomes `last` and one of the other side changes nothing (as written); an empty block resets `last` to 128; any other empty cell yields (last, cell) when `last` is set |
| Tablut.Moves | src/tablut.rs:219-327 | Defines get_moves: the moves of the 36 scan lines in the source's order, the rows and the columns each scanned in both directions |
| Tablut.TileCode | src/tablut.rs:10-20 | `Tile::from` inverts `v as u64` and reads only the low two bits |
| Tablut.GetSet | src/tablut.rs:146-172 | get after set reads the value set at that cell and the old value everywhere else |
| Tablut.ShiftInjective | src/tablut.rs:146-172 | Distinct cells of one word sit at distinct shifts |
| Tablut.StateOfKing | src/tablut.rs:334-353 | With one king: Win exactly when it stands on an edge win cell; Going exactly when it is otherwise on the inner 7x7 |
| Tablut.StateNoKing | src/tablut.rs:334-353 | Without a king, the state is Lose |
| Tablut.JumpsOpponent | src/tablut.rs:226-236 | As written, a piece may slide past an opposing piece |
| Tablut.AllLinesSlide | src/tablut.rs:219-327 | Every generated move slides along a row or column from a piece of the side to move to an empty non-block cell |
| Tablut.MovesReach | src/tablut.rs:219-327 | get_moves is sound and complete: its moves are exactly those from a piece of the side to move, along a scan line, to an empty non-block cell, over cells that are the other side's pieces (as written) or empty non-blocks |
| Tablut.AllLinesReach | src/tablut.rs:219-327 | The first n scan lines emit exactly the moves the rule allows on them |
| Tablut.LineReach | src/tablut.rs:219-327 | One scan line emits exactly the moves the rule allows on it |
| Tablut.LineScan | src/tablut.rs:219-327 | A scan line is the generic scan along its nine cells |
| Tablut.ScanReach | src/tablut.rs:219-327 | A scan from step i on emits exactly the allowed moves that end at step i or later, given what `last` remembers |
| Tablut.StepTracks | src/tablut.rs:219-327 | After one step, `last` is the one cell from which the line is open up to the next step, or 128 when there is none |
| Tablut.StepEmits | src/tablut.rs:219-327 | One step emits exactly the allowed moves that end at that step |
| Tablut.MovesOk | src/tablut.rs:219-327 | Every generated move of a position still going is one that mov accepts |
| Tablut.MovFrame | src/tablut.rs:357-375 | mov puts the piece on m.1 and empties m.0. Only m.1 + 9 may also be cleared, and every other cell is unchanged |
| Tablut.OneKingKept | src/tablut.rs:357-375 | A move never creates a second king: a position with one king has at most one after a move |
| Tablut.RoundTrip | src/tablut.rs:357-379 | rollback after mov restores the position |
| Tablut.StartGoing | src/tablut.rs:21-122 | The start position has one king, on cell 40, and is Going |
| Tablut.Tablut.constructor | src/tablut.rs:203-215 | new(t) lays out the starting position with turn t and an empty stack |
| Tablut.Tablut.SetTile | src/tablut.rs:158-172 | set updates the word as the packed specification says |
| Tablut.Tablut.At | src/tablut.rs:146-157 | get reads the board view |
| Tablut.Tablut.GetMoves | src/tablut.rs:219-327 | The four scans compute the moves of the rules |
| Tablut.Tablut.GetMovesSorted | src/tablut.rs:328-330 | get_moves_sorted is get_moves |
| Tablut.Tablut.State | src/tablut.rs:334-353 | The scans compute the state of the rules |
| Tablut.Tablut.Mov | src/tablut.rs:357-375 | mov updates words, turn and stack as the specification says |
| Tablut.Tablut.Rollback | src/tablut.rs:376-379 | rollback pops the board and passes the turn back |
| Tablut.InstanceLawful | src/tablut.rs:200-380 | Tablut satisfies the stack-game laws for any i64 heuristic |
| TablutWithDraw.Captured | src/tablut_with_draw.rs:176-195 | Defines captured: the defenders take an attacker held against a defender, king or capture aid; the attackers take a defender held against an attacker or aid, a king surrounded on four sides, or a king off the throne and its four neighbours held against an attacker or aid |
| TablutWithDraw.MovSpec | src/tablut_with_draw.rs:448-491 | Defines mov: the sentinel declares the side without moves the winner; otherwise the piece moves, the four captures, the goal win, the turn step and the vis record with draw on repetition. Its result is a valid position |
| TablutWithDraw.RollbackAsWritten | src/tablut_with_draw.rs:509-530 | Defines rollback as written, the sentinel included. Its result is a valid position |
| TablutWithDraw.RollbackSpec | src/tablut_with_draw.rs:509-530 | Defines the corrected rollback: the sentinel restores only state and turn. Its result is a valid position |
| TablutWithDraw.Step | src/tablut_with_draw.rs:219-310 | Defines one cell of a scan: an empty block ends the run unless `last` is a block close enough, another empty cell yields (last, cell) when `last` is set, and a piece becomes `last` when it starts moves and clears it otherwise. It yields at most one move, and `last` stays at or before the current step |
| TablutWithDraw.Moves | src/tablut_with_draw.rs:219-310 | Defines get_moves: the scans of every line, or the sentinel (40, 40) when they find nothing |
| TablutWithDraw.OrdiKey | src/tablut_with_draw.rs:311-324 | Defines the sort key of get_moves_sorted: the ORDI entry of the side's row at the move's distance |
| TablutWithDraw.Material | src/tablut_with_draw.rs:338-347 | Defines the material term: +6 per defender and -3 per attacker |
| TablutWithDraw.Mobility | src/tablut_with_draw.rs:348-444 | Defines the mobility term: over the moves the scans find with every piece starting moves, +2 per defender move, +4 per king move and -1 per attacker move |
| TablutWithDraw.GetSet | src/tablut_with_draw.rs:169-175 | get after set reads the value set at that cell and the old value everywhere else |
| TablutWithDraw.CellsInjective | src/tablut_with_draw.rs:150-151 | A packed board is determined by its cells |
| TablutWithDraw.MapcUnmapc | src/tablut_with_draw.rs:156-161 | mapc and unmapc are inverse on the board |
| TablutWithDraw.IncDec | src/tablut_with_draw.rs:152 | The wrapping u32 turn counter steps back exactly and flips parity |
| TablutWithDraw.CaptureAtEffect | src/tablut_with_draw.rs:460-483 | One capture check changes at most its cell, to empty. Only the attackers' checks change the state, and only to Lose, which a captured king always causes |
| TablutWithDraw.MovBoard | src/tablut_with_draw.rs:448-491 | mov moves the piece and may empty only neighbours of m.1. It advances the turn and records the new key in vis |
| TablutWithDraw.MovDraw | src/tablut_with_draw.rs:486-490 | A move ends in Draw exactly when its position was seen before |
| TablutWithDraw.MovState | src/tablut_with_draw.rs:460-490 | Unless drawn, a move is a Win exactly when the king reaches a goal; a captured king makes it Lose or Draw |
| TablutWithDraw.SentinelRollbackAsWritten | src/tablut_with_draw.rs:509-530 | As written, undoing the no-move sentinel (40, 40) empties the throne cell |
| TablutWithDraw.RoundTrip | src/tablut_with_draw.rs:492-530 | The corrected rollback restores the position after every move from a position still going, the sentinel included |
| TablutWithDraw.MovesAreSlides | src/tablut_with_draw.rs:219-310 | get_moves is exactly the legal slides, or the sentinel (40, 40) exactly when no slide exists |
| TablutWithDraw.KingSafeKept | src/tablut_with_draw.rs:176-195 | Generated moves keep every king inside the board rows that captured reads around |
| TablutWithDraw.MovesDist | src/tablut_with_draw.rs:319-321 | Every generated move's distance indexes the ORDI table |
| TablutWithDraw.MovesSorted | src/tablut_with_draw.rs:311-324 | get_moves_sorted is a permutation of get_moves, sorted by the ORDI key of the side to move |
| TablutWithDraw.Heuristic | src/tablut_with_draw.rs:331-447 | The heuristic is 32768/-32768/0 on Win/Lose/Draw and strictly inside (-32768, 32768) while going |
| TablutWithDraw.ScoreRange | src/tablut_with_draw.rs:336-445 | The material and mobility score of a game going lies strictly inside (-32768, 32768) |
| TablutWithDraw.StartSafe | src/tablut_with_draw.rs:22-123 | The start position has the king on the throne, safe |
| TablutWithDraw.Start | src/tablut_with_draw.rs:201-215 | new(t) is Going, turn parity t, and has its own key in vis |
| TablutWithDraw.VisHas | src/tablut_with_draw.rs:488 | Looking up a packed key in vis is looking up its cells |
| TablutWithDraw.Board.constructor | src/tablut_with_draw.rs:201-215 | new(t) builds the start position |
| TablutWithDraw.Board.StaticState | src/tablut_with_draw.rs:325-327 | get_static_state is the key of the position |
| TablutWithDraw.Board.SetTile | src/tablut_with_draw.rs:172-175 | set updates the packed bytes as specified |
| TablutWithDraw.Board.Captures | src/tablut_with_draw.rs:460-483 | The four capture checks compute the capture steps |
| TablutWithDraw.Board.Record | src/tablut_with_draw.rs:484-490 | Goal win, the turn step and the vis insertion with draw detection |
| TablutWithDraw.Board.Mov | src/tablut_with_draw.rs:448-491 | mov updates board, turn, state and vis as the specification says |
| TablutWithDraw.Board.MovWithRollback | src/tablut_with_draw.rs:492-508 | The token packs the four neighbours of m.1 |
| TablutWithDraw.Board.Restore | src/tablut_with_draw.rs:516-529 | The board part of rollback writes the neighbours back and returns the piece |
| TablutWithDraw.Board.Rollback | src/tablut_with_draw.rs:509-530 | rollback, corrected for the sentinel, computes the corrected specification |
| TablutWithDraw.Board.GetMoves | src/tablut_with_draw.rs:219-310 | The four scans compute the moves of the rules |
| TablutWithDraw.Board.GetMovesSorted | src/tablut_with_draw.rs:311-324 | The result is the sorted moves of the rules |
| TablutWithDraw.Board.HeuristicM | src/tablut_with_draw.rs:331-447 | The loops compute the heuristic of the rules |
| TablutWithDraw.MoveLawful | src/tablut_with_draw.rs:448-530 | A generated move keeps the king safe and is undone exactly by the corrected rollback |
| TablutWithDraw.InstanceLawful | src/tablut_with_draw.rs:197-531 | Tablut with draws satisfies the token-game laws |
| MinimaxSimple.MinimaxSimple.constructor | src/minimax_simple.rs:81-90 | new: the counter at 0, not ended early, the default move as last answer |
| MinimaxSimple.MinimaxSimple.Tick | src/minimax_simple.rs:21-25 | The u8 budget counter wraps. The clock is read only when the counter wraps to 0 and the search has not stopped, and a stop is sticky |
| MinimaxSimple.MinimaxSimple.Minimax | src/minimax_simple.rs:16-43 | Decided or depth 0 answers the heuristic. Otherwise a max node never answers below a and a min node never above b, and a search not cut short answers the window for the reference value. The position is unchanged |
| MinimaxSimple.MinimaxSimple.Children | src/minimax_simple.rs:26-42 | The child loop keeps the alpha-beta invariant against the reference maximum/minimum |
| MinimaxSimple.MinimaxSimple.Explore | src/minimax_simple.rs:28-30 | A child is searched with the window and undone, and answers the window for the child's value |
| MinimaxSimple.MinimaxSimple.MinimaxMove | src/minimax_simple.rs:44-77 | Reports an early stop. Otherwise last_ans becomes the first strictly best root move, and an early stop keeps the old answer |
| MinimaxSimple.MinimaxSimple.GetMov | src/minimax_simple.rs:100-110 | The answer is the root choice of the last completed depth, or the old answer when depth 1 was already cut short. Below the u32 cap, the search one depth past the last completed one is the one that stopped early |
| MinimaxSimple.MinimaxSimple.Mov | src/minimax_simple.rs:111-113 | mov plays the move on the position |
| MinimaxSimple.WidestSearch | src/minimax_simple.rs:45-52 | With the widest window, a completed search answers exactly the reference value |
| MinimaxHard.OldDepth | src/minimax_hard.rs:16-22 | old_depth is the stored depth of the position, or 0 |
| MinimaxHard.KeyOrder | src/minimax_hard.rs:25-38 | With exact negation, a smaller sort key means a better guessed child for the side to move |
| MinimaxHard.SortedBestFirst | src/minimax_hard.rs:25-39 | The moves are tried with no later child guessed better than an earlier one |
| MinimaxHard.Neg64 | src/minimax_hard.rs:33-34 | i64 negation as the release build computes it: exact except at i64::MIN |
| MinimaxHard.UnknownFirstAsWritten | src/minimax_hard.rs:73-86 | As written, at a max node searched with res = i64::MIN, an unknown child's wrapped key sorts it before a known child of value 0, though its guess is not better. The corrected key puts the known child first |
| MinimaxHard.FirstBetter | src/minimax_hard.rs:91-101 | The root answer is at the first strictly best value, or the first move when nothing beats the initial bound |
| MinimaxHard.FirstBetterStep | src/minimax_hard.rs:91-101 | One root child updates the first strictly best index as the loop does |
| MinimaxHard.MinimaxHard.constructor | src/minimax_hard.rs:116-121 | new: an empty table |
| MinimaxHard.MinimaxHard.ChildKey | src/minimax_hard.rs:26-37 | The key of one move: play it, look up the child, undo it, negate on the max side |
| MinimaxHard.MinimaxHard.OrderedMoves | src/minimax_hard.rs:24-38 | The moves sorted by cached key: a permutation of the keyed moves, sorted by key |
| MinimaxHard.MinimaxHard.Minimax | src/minimax_hard.rs:12-58 | Decided or depth 0 answers the heuristic. A table hit answers the stored value, and a miss answers on the right side of the window. The table only grows, and entries deeper than 4 and beyond the stored depth are recorded |
| MinimaxHard.MinimaxHard.Children | src/minimax_hard.rs:39-53 | The child loop answers on the right side of the window and only grows the table |
| MinimaxHard.MinimaxHard.MinimaxMove | src/minimax_hard.rs:59-112 | The root tries at most 3 (depth > 3) or 6 sorted moves. It answers the first strictly best one, or moves[0], and records the root value under the depth rule |
| MinimaxHard.MinimaxHard.RootChildren | src/minimax_hard.rs:87-107 | The root loop over the first `width` sorted moves picks the first strictly best |
| MinimaxHard.MinimaxHard.GetMov | src/minimax_hard.rs:128-145 | Deepens from 1 while the clock allows: every read up to the last said not up, and the last one said up, unless the u32 cap was reached. The answer is a legal move |
| MinimaxHard.MinimaxHard.Mov | src/minimax_hard.rs:146-148 | mov plays the move and keeps the table |
| MinimaxFinal.Fresh | src/minimax_final.rs:13-19 | Tree::new: value 0, depth 0, no children |
| MinimaxFinal.FreshChildren | src/minimax_final.rs:56-62 | A first expansion pairs every move with a fresh subtree, in move order |
| MinimaxFinal.Arrange | src/minimax_final.rs:56-66 | Children are created on first visit, or re-sorted best-first by their stored value |
| MinimaxFinal.ArrangeFits | src/minimax_final.rs:56-66 | Arranged children match the moves of the position |
| MinimaxFinal.Settled | src/minimax_final.rs:45-48 | Defines a node that is not searched again: a value beyond ±30000 or a stored depth at least the depth asked |
| MinimaxFinal.ValKey | src/minimax_final.rs:64-65 | The re-sort key is the child's value, negated on the max side |
| MinimaxFinal.FoldMaxBounds | src/minimax_final.rs:74-84 | The max loop's a is at least a0 and every child's value, and is a0 or some child's value |
| MinimaxFinal.FoldMinBounds | src/minimax_final.rs:85-96 | The min loop's b is at most b0 and every child's value, and is b0 or some child's value |
| MinimaxFinal.FoldMaxMono | src/minimax_final.rs:74-84 | The max loop's a only grows as children are searched |
| MinimaxFinal.FoldMinMono | src/minimax_final.rs:85-96 | The min loop's b only shrinks as children are searched |
| MinimaxFinal.SearchedStops | src/minimax_final.rs:74-96 | A child loop stops at the first child that closes the window: no shorter prefix closed it, and stopping before the last child means this one did |
| MinimaxFinal.Rank | src/minimax_final.rs:135-140 | Defines the max_by_key key: the depth searched, then the value oriented for the side to move |
| MinimaxFinal.LastMax | src/minimax_final.rs:135-140 | max_by_key picks the last child with the greatest (depth, signed value) |
| MinimaxFinal.MinimaxFinal.constructor | src/minimax_final.rs:103-113 | new: a fresh tree, depth 0, not ended early |
| MinimaxFinal.MinimaxFinal.Tick | src/minimax_final.rs:50-54 | The u8 budget counter wraps, the clock is read on wrap to 0, and a stop is sticky |
| MinimaxFinal.MinimaxFinal.Minimax | src/minimax_final.rs:39-99 | A decided or depth-0 node stores the heuristic and the depth. A settled or stopped node is left as it was. Otherwise the arranged children are searched in turn up to and including the first one that closes the window, the rest are kept, and the node stores the max/min fold of those searched and the depth |
| MinimaxFinal.MinimaxFinal.MaxChildren | src/minimax_final.rs:74-84 | The max loop searches the children in turn and stops right after the first one whose fold reaches b, or after the last. It answers the fold of those searched and keeps the rest |
| MinimaxFinal.MinimaxFinal.MinChildren | src/minimax_final.rs:85-96 | The min loop searches the children in turn and stops right after the first one whose fold reaches a, or after the last. It answers the fold of those searched and keeps the rest |
| MinimaxFinal.MinimaxFinal.VisitMax | src/minimax_final.rs:75-83 | One turn of the max loop: child i's subtree is replaced by its search, and a becomes the fold up to child i |
| MinimaxFinal.MinimaxFinal.VisitMin | src/minimax_final.rs:86-95 | One turn of the min loop: child i's subtree is replaced by its search, and b becomes the fold up to child i |
| MinimaxFinal.MinimaxFinal.GetMov | src/minimax_final.rs:123-144 | Deepens until a stop, a certain win or loss, or the u32 cap. cur_depth steps back after a stop, and the answer is the child max_by_key picks, or None for an unexpanded root |
| MinimaxFinal.MinimaxFinal.Mov | src/minimax_final.rs:145-157 | The tree re-roots at the first child with the move, else a fresh tree. cur_depth steps down, saturating at 0 |
| MinimaxTablut.Heur | src/minimax_tablut.rs:34-166 | heur: 32768 - turn on Win, -32768 + turn on Lose, 0 on Draw, the game heuristic while Going; inside (-2^32, 2^32) |
| MinimaxTablut.FasterWinsHigher | src/minimax_tablut.rs:35-38 | A win in fewer turns scores higher, a loss in fewer turns lower; within 32768 turns a win beats a draw, which beats a loss |
| MinimaxTablut.HeurLawful | src/minimax_tablut.rs:34-166 | Tablut with draws evaluated by heur satisfies the laws, and every position going has a move |
| MinimaxTablut.LinkedBounded | src/minimax_tablut.rs:167-189 | Every reference value lies strictly inside (-2^32, 2^32) |
| MinimaxTablut.SortedCells | src/minimax_tablut.rs:200-203 | Every sorted move has both cells on the board and a distance below 9, so the counter indices are in range |
| MinimaxTablut.DistBelow | src/minimax_tablut.rs:200-201 | The distance of a move between board cells is below 9 |
| MinimaxTablut.IndexInjective | src/minimax_tablut.rs:203 | The corrected index m.0*81 + m.1 is below 81*81 and distinct for distinct moves |
| MinimaxTablut.IndexCollisionAsWritten | src/minimax_tablut.rs:203 | As written in u8 the index wraps: (3, 21) and (0, 8) both count at 8 |
| MinimaxTablut.BumpedCounts | src/minimax_tablut.rs:202-203 | Bumping counters by a sequence of indices adds each index's multiplicity |
| MinimaxTablut.AfterCounts | src/minimax_tablut.rs:199-231 | After a search, each counter is its old value plus how often its index occurs among the moves seen (mftot, mdftot) or chosen (mf, mdf) |
| MinimaxTablut.AfterAppend | src/minimax_tablut.rs:199-231 | Counting two batches in turn is counting their concatenation |
| MinimaxTablut.MinimaxTablut.constructor | src/minimax_tablut.rs:250-258 | new(t): the game's start position and four zeroed counter arrays |
| MinimaxTablut.MinimaxTablut.HeurM | src/minimax_tablut.rs:34-166 | heur computes the evaluation function |
| MinimaxTablut.MinimaxTablut.Minimax | src/minimax_tablut.rs:167-189 | Decided or depth 0 answers heur. Otherwise the answer is on the right side of the window and answers it for the reference value, and the position is unchanged |
| MinimaxTablut.MinimaxTablut.Children | src/minimax_tablut.rs:171-188 | The child loop answers the window for the reference value |
| MinimaxTablut.MinimaxTablut.MinimaxMove | src/minimax_tablut.rs:190-233 | The answer is the first strictly best sorted move. Every root move is counted as seen and the answer as chosen, and the position is unchanged |
| MinimaxTablut.MinimaxTablut.RootSearch | src/minimax_tablut.rs:194-223 | The uncut root loop finds the first strictly best move and counts every move seen |
| MinimaxTablut.MinimaxTablut.Count | src/minimax_tablut.rs:200-203 | One seen move bumps mftot at its index and mdftot at its distance |
| MinimaxTablut.MinimaxTablut.Record | src/minimax_tablut.rs:224-231 | The chosen move bumps mf at its index and mdf at its distance |
| MinimaxTablut.MinimaxTablut.GetMov | src/minimax_tablut.rs:268-285 | Answers the root choice of the deepest search. Every clock read before it said not up, and the last said up unless the u32 cap was reached. The counters grow by every search's seen and chosen moves |
| MinimaxTablut.ChoicesAt | src/minimax_tablut.rs:270-278 | The d-th answer of the deepening is the root choice at depth d + 1 |
| MinimaxTablut.ReadClock | src/minimax_tablut.rs:273-275 | One clock read: it says up exactly when the oracle does |
| MinimaxTablut.MinimaxTablut.Mov | src/minimax_tablut.rs:286-288 | mov plays the move on the game |

## Left out

**Output and helpers outside the engines**
- Display, print2game, eprintln and print_stats print only, so they are not modelled.
- print_stats's f32 ratios are not modelled.
- src/lib.rs, src/main.rs, the Monte-Carlo engines, the random agent and the tablut heuristics modules are not part of this model.

**Clocks and the deepening depth**
- The clocks and elapsed-time checks become an oracle `tl: nat -> bool` read in sequence.
  - minimax_simple and minimax_final test `elapsed > tl - 20ms`.
  - minimax_hard tests `> 250 ms`.
  - minimax_tablut tests `ms * 20 > 2000`.
  - The durations themselves are not modelled.
- MinimaxSimple.MinimaxSimple.GetMov, MinimaxHard.MinimaxHard.GetMov, MinimaxFinal.MinimaxFinal.GetMov and MinimaxTablut.MinimaxTablut.GetMov stop deepening at u32::MAX. The source's u32 `depth += 1` would overflow there. Termination otherwise rests on the clock.

**Game construction and the interface**
- `G::new(t)` inside the generic engines is a start position passed to the constructor, and `G::M::default()` a fallback move.
- `state` and `turn` of the engines only delegate to the game, so they are not modelled separately.
- src/game.rs and src/ai.rs show an older interface: no mov_with_rollback, and no time limit in get_mov. The model follows the core files, which use the token interface and the time limit.

**Sorting and integers**
- Sorting.SortByKey is a stable insertion sort, so it keeps equal keys in input order as sort_by_key and sort_by_cached_key do. sort_unstable_by_key leaves that order unspecified (src/minimax_final.rs:65 and tablut_with_draw's get_moves_sorted), so there only "a permutation, in key order" is claimed.
- The usize counters of minimax_tablut are unbounded naturals.
- The u8 and u32 arithmetic the games rely on wraps as in a release build (mancala cells, othello's pass, tablut_with_draw's turn). A debug build would panic instead. i64 negation is exact everywhere except MinimaxHard.Neg64 and the as-written finding members.

**Games**
- Tictactoe.TokenInstance and Tablut.StackInstance take the heuristic as a parameter. tictactoe.rs has no heuristic, and tablut.rs's is `unimplemented!()`.
- Panics become preconditions: out-of-range indices, `unwrap` on an empty undo stack, and `12 - i` underflow in mancala's rollback.
- Mancala.Moves: on the second player's turn the range filter `x.0 > 6` includes store 13, as written.
- tablut.rs captures are modelled as written:
  - every successful check empties cell m.1 + 9;
  - the defenders' check compares the far cell with D;
  - pieces slide past opposing pieces (Tablut.JumpsOpponent).
- Tablut cells 81..95 of the third word and tablut_with_draw cells 81..83 of the last byte exist in the packing but are never on the board.
- TablutWithDraw requires that every king stays off the edge (KingSafe) before an attackers' capture check, since captured reads a king's four neighbours. Generated moves keep this (TablutWithDraw.KingSafeKept).
- TablutWithDraw.OrdiKey gives 0 to a distance outside the ORDI table. No generated move has one (TablutWithDraw.MovesDist).
- The vis HashSet is a set of keys; hashing is not modelled.

**Engines**
- MinimaxTablut.Heur: the Going branch of heur is the same code as tablut_with_draw's heuristic (src/tablut_with_draw.rs:336-445), minus a commented-out king term, so it is modelled by that function.
- The minimax_tablut root loop has no cutoff, because the source comments out its `a >= b` break.
- MinimaxFinal.MinimaxFinal.Minimax states the values it stores, not a relation to the reference minimax. Reused subtrees make the source's value depend on the tree's history.
- MinimaxFinal.ValKey and MinimaxFinal.Rank negate exactly. The source's `-x.1.val` in the re-sort key (src/minimax_final.rs:65) and in max_by_key (src/minimax_final.rs:138) would wrap on i64::MIN.
- MinimaxFinal.MinimaxFinal.MaxChildren and MinimaxFinal.MinimaxFinal.MinChildren, like Minimax, state the fold they store, not a relation to the reference minimax value.
- MinimaxHard.MinimaxHard.ChildKey negates exactly, the corrected key of the minimax_hard finding. The source's `-x` wraps on i64::MIN; MinimaxHard.UnknownFirstAsWritten shows what that does.
- MinimaxHard.MinimaxHard.Children states only that the answer lies on the right side of the window and that the table only grows. Like Minimax, it does not relate the answer to the reference value.
- MinimaxTablut.MinimaxTablut.Count and MinimaxTablut.MinimaxTablut.Record index by the full m.0*81 + m.1, the corrected index of the minimax_tablut finding. The source's u8 index wraps; MinimaxTablut.IndexCollisionAsWritten shows the collision.
- MinimaxHard.MinimaxHard.Minimax does not relate the answer to the reference minimax. Table hits at depth within old depth + 4 answer values from shallower searches.
- MinimaxHard.MinimaxHard.GetMov states legality and the clock protocol, not which move is answered.

## Findings

| source | as written | input that shows it | evidently intended | confidence | as-written member | corrected member |
|---|---|---|---|---|---|---|
| src/othello.rs:150-156 | rollback decrements a nonzero pass counter whatever move it undoes | one pass, then a move on cell 19 and its undo: pass goes from 1 to 0 | step the pass counter back only when the undone move was the pass | not executed | Othello.PassLostAsWritten | Othello.RoundTrip |
| src/tablut_with_draw.rs:509-530 | rollback of the no-move sentinel (40, 40) moves "the piece on m.1" to m.0 and empties m.1, the same cell | any position with a piece on cell 40 whose side plays the sentinel: the piece vanishes | the sentinel changed only turn and state, so only those are undone | not executed | TablutWithDraw.SentinelRollbackAsWritten | TablutWithDraw.RoundTrip |
| src/minimax_hard.rs:73-86 | at the root of a max node an unknown child is keyed `-i64::MIN`, which wraps to i64::MIN and sorts first | a child absent from the table next to a known child of value 0 | unknown children rank as the running result, i.e. worst on the max side | not executed | MinimaxHard.UnknownFirstAsWritten | MinimaxHard.KeyOrder |
| src/minimax_tablut.rs:203 | the statistics index `m.0 * 81 + m.1` is computed in u8 and wraps | moves (3, 21) and (0, 8) both bump counter 8 | index the 81*81 table by the full product | not executed | MinimaxTablut.IndexCollisionAsWritten | MinimaxTablut.IndexInjective |
