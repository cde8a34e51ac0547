# Connect Four engine, modelled and verified in Dafny

This project models the rule and heuristic engine of a Connect Four game
(the `ConnectFourLogic` class) for a 7-column, 6-row board of `Empty`,
`Player` and `Computer` chips.

The engine has five parts, and the model covers each one:

- **The board.** `Engine.ConnectFourLogic` is a class holding a 7x6
  `array2<ChipType>`. It has a ghost abstract value `Cells`, a column-major
  sequence of sequences, and `Valid()` ties the array to it. Its methods
  are the source's methods, and their loops carry invariants:
  - construction and reset;
  - cell query and cell write;
  - the column-full and board-full tests;
  - the random choice of a playable column.
  The pure definitions are in module `Board`.
- **Win detection.** `CheckForWin` runs the source's four scanning loops.
  The loops are tied to two definitions in module `WinRules`:
  - `ScanWin`, the four loop ranges as written;
  - `FourInARow`, an independent geometric definition: four cells of one
    type along any of the eight unit directions, anywhere on the board.
  `ScanWinExact` proves that the two agree.
- **The window scorer.** `GetScore` keeps the source's `while (true)`
  loop. That loop steps from the start cell to the end cell with integer
  line stepping (Bresenham). At each cell it adds 3 for an own chip or 1
  for an empty cell, returns 0 on an opposing chip, and applies the
  order-sensitive multipliers.
  - Module `LineWalk` describes the walk for *every* pair of endpoints,
    as a function of the number of steps taken along each axis. It proves
    that the walk terminates, stays in the box spanned by the endpoints,
    moves between adjacent cells, and stops exactly at the end cell.
  - Module `Scoring` folds the scoring over the cells walked. `GetScore`
    is proved equal to that fold, `WindowScore`.
- **The cell evaluator.** `GetCellScore` sums `GetScore` for Player and
  for Computer over 16 windows: the index-th horizontal, ascending,
  descending and vertical window through the cell, for index 0 to 3.
- **The move selector.** `BestColumns` is modelled as written: it returns
  the empty list.

## Model

| member | source | states |
|---|---|---|
| Engine.ConnectFourLogic.constructor | Assets/Scripts/Logic/ConnectFourLogic.cs:32-49 | A new engine has a fresh 7x6 array and every cell is Empty. |
| Engine.ConnectFourLogic.ResetBoardMatrix | Assets/Scripts/Logic/ConnectFourLogic.cs:196-205 | After a reset every cell is Empty. The same array is reused, so the dimensions stay 7x6. |
| Engine.ConnectFourLogic.IsCellEmpty | Assets/Scripts/Logic/ConnectFourLogic.cs:207-210 | True exactly when the cell holds Empty. Requires an in-range cell and changes nothing. |
| Engine.ConnectFourLogic.SetChipType | Assets/Scripts/Logic/ConnectFourLogic.cs:212-215 | Only the addressed cell changes, to the given chip. Every other cell keeps its value. No game rule is enforced. |
| Engine.ConnectFourLogic.IsColumnFull | Assets/Scripts/Logic/ConnectFourLogic.cs:217-227 | True exactly when no cell of the column is Empty. Read-only. |
| Engine.ConnectFourLogic.IsGameOver | Assets/Scripts/Logic/ConnectFourLogic.cs:301-312 | True exactly when every one of the 7 columns is full. Read-only. |
| Engine.ConnectFourLogic.FindRandomColumn | Assets/Scripts/Logic/ConnectFourLogic.cs:229-239 | Returns a column in [0, 7) that is not full. It is the first draw that is not full; every earlier draw was a full column. |
| Engine.ConnectFourLogic.CheckForWin | Assets/Scripts/Logic/ConnectFourLogic.cs:246-299 | True exactly when four chips of the type lie in a row, in any direction, anywhere on the board. Read-only. |
| Engine.ConnectFourLogic.GetScore | Assets/Scripts/Logic/ConnectFourLogic.cs:95-192 | Returns the window's score as the specification folds it along the line walk. The zero cases, the bound and the golden values are proved about that fold. |
| Engine.ConnectFourLogic.ApplyMultipliers | Assets/Scripts/Logic/ConnectFourLogic.cs:144-168 | The two threshold blocks compute `Boost`. Its monotonicity, and the fact that Empty never multiplies, are proved. |
| Engine.ConnectFourLogic.StepAlongLine | Assets/Scripts/Logic/ConnectFourLogic.cs:176-187 | The e2 step on the loop variables. `LineWalk.StepState` shows that it reaches the position and error term of the next step counts. |
| Engine.ConnectFourLogic.GetCellScore | Assets/Scripts/Logic/ConnectFourLogic.cs:60-86 | The total is Player's plus Computer's score over the 16 windows through the cell. It is never negative. Read-only. |
| Engine.ConnectFourLogic.BestColumns | Assets/Scripts/Logic/ConnectFourLogic.cs:324-327 | Always the empty list. |
| Board.EmptyGrid | Assets/Scripts/Logic/ConnectFourLogic.cs:39-49 | The initial board: 7 columns of 6 cells, all Empty. |
| Board.Place | Assets/Scripts/Logic/ConnectFourLogic.cs:212-215 | Writing a chip changes exactly one cell and keeps the shape of the board. |
| LineWalk.SegmentOf | Assets/Scripts/Logic/ConnectFourLogic.cs:121-124 | The signs are ±1, and dx steps of sx (dy steps of sy) lead exactly to the end column (end row). |
| LineWalk.Err | Assets/Scripts/Logic/ConnectFourLogic.cs:125 | Defines the error term after i column steps and j row steps as (j+1)·dx − (i+1)·dy. With no steps taken it is dx − dy, the initial value of err. |
| LineWalk.StepsColumn | Assets/Scripts/Logic/ConnectFourLogic.cs:176-181 | Defines the column-step test `2·err > −dy` of the next iteration. |
| LineWalk.StepsRow | Assets/Scripts/Logic/ConnectFourLogic.cs:183-187 | Defines the row-step test `2·err < dx` of the next iteration. Both tests read the same e2, taken before either update. |
| LineWalk.NextColumn | Assets/Scripts/Logic/ConnectFourLogic.cs:176-181 | Defines the column step count after one more iteration: one more exactly when the column test holds. |
| LineWalk.NextRow | Assets/Scripts/Logic/ConnectFourLogic.cs:183-187 | Defines the row step count after one more iteration: one more exactly when the row test holds. |
| LineWalk.StepBounds | Assets/Scripts/Logic/ConnectFourLogic.cs:176-187 | Before the end, an iteration moves along at least one axis and never past the end on either axis. This is what makes the loop terminate. |
| LineWalk.ErrStep | Assets/Scripts/Logic/ConnectFourLogic.cs:176-187 | Each err update keeps err equal to (j+1)·dx − (i+1)·dy, with i and j the steps taken. |
| LineWalk.Walk | Assets/Scripts/Logic/ConnectFourLogic.cs:127-188 | The cells visited from a position onwards. The walk begins at that position and ends at the end cell, stays inside their bounding box, and has at most (dx−i)+(dy−j)+1 cells. |
| LineWalk.WalkNext | Assets/Scripts/Logic/ConnectFourLogic.cs:176-187 | One iteration drops the current cell and continues from the next step counts. err changes by −dy and/or +dx. |
| LineWalk.WalkLast | Assets/Scripts/Logic/ConnectFourLogic.cs:171-174 | The loop's exit test `c == endCol && r == endRow` holds exactly when both axes are complete, and the walk ends there. |
| LineWalk.Steps | Assets/Scripts/Logic/ConnectFourLogic.cs:127-188 | The step counts after k iterations never exceed dx and dy. |
| LineWalk.WalkSuffix | Assets/Scripts/Logic/ConnectFourLogic.cs:127-188 | After k iterations, the cells still to visit are exactly the walk from the step counts reached. |
| LineWalk.StepState | Assets/Scripts/Logic/ConnectFourLogic.cs:176-187 | The source's updates of c, r and err produce the position and error term of the next step counts, which are strictly closer to the end. |
| LineWalk.Path | Assets/Scripts/Logic/ConnectFourLogic.cs:117-188 | The cells GetScore visits start at startCell, end at endCell, and lie in the box the two cells span. |
| LineWalk.PathInGrid | Assets/Scripts/Logic/ConnectFourLogic.cs:102-129 | If both endpoints pass the bounds check, every cell the loop reads is on the board. |
| LineWalk.PathAt | Assets/Scripts/Logic/ConnectFourLogic.cs:127-188 | The k-th cell read is the position after k iterations. The loop goes on after it exactly when that position is not the end. |
| LineWalk.PathAdjacent | Assets/Scripts/Logic/ConnectFourLogic.cs:176-187 | Consecutive cells of the path are neighbours, and no step moves away from the end cell on either axis. |
| LineWalk.StraightStep | Assets/Scripts/Logic/ConnectFourLogic.cs:176-187 | On a horizontal, vertical or 45-degree line, each iteration moves one unit along exactly the axes that change. |
| LineWalk.StraightSteps | Assets/Scripts/Logic/ConnectFourLogic.cs:127-188 | On such a line, after k iterations each changing axis has taken k steps. |
| LineWalk.StraightPosition | Assets/Scripts/Logic/ConnectFourLogic.cs:121-124 | A straight line's segment is straight, its length is max(dx, dy), and its unit positions are the line's cells. |
| LineWalk.StraightPath | Assets/Scripts/Logic/ConnectFourLogic.cs:117-188 | A straight path visits exactly max(dx, dy)+1 cells, the k-th being k unit steps from the start. A 4-cell window visits exactly 4 cells. |
| Scoring.Boost | Assets/Scripts/Logic/ConnectFourLogic.cs:144-168 | The multipliers never lower a non-negative score, and an Empty cell multiplies nothing. |
| Scoring.Blocks | Assets/Scripts/Logic/ConnectFourLogic.cs:131-142 | Defines the chip that aborts the scan: neither the scored type nor Empty. |
| Scoring.Count | Assets/Scripts/Logic/ConnectFourLogic.cs:129-168 | A cell aborts the scan exactly when it holds an opposing chip. Otherwise the score strictly grows. |
| Scoring.Tally | Assets/Scripts/Logic/ConnectFourLogic.cs:127-188 | A scan that is not aborted scores at least one point per cell. |
| Scoring.WindowChips | Assets/Scripts/Logic/ConnectFourLogic.cs:129 | The chips read, one per visited cell. |
| Scoring.WindowScore | Assets/Scripts/Logic/ConnectFourLogic.cs:95-192 | A window's score is never negative. |
| Scoring.TallyBlocked | Assets/Scripts/Logic/ConnectFourLogic.cs:139-142 | The scan is aborted exactly when some chip read is an opposing one. |
| Scoring.TallyBlockedPrefix | Assets/Scripts/Logic/ConnectFourLogic.cs:139-142 | Once aborted, no further cell brings the window back. |
| Scoring.WindowScoreZero | Assets/Scripts/Logic/ConnectFourLogic.cs:102-142 | GetScore returns 0 exactly when an endpoint is off the board or an opposing chip lies in the window. Otherwise it returns at least the number of cells visited. |
| Scoring.ScanStart | Assets/Scripts/Logic/ConnectFourLogic.cs:117-125 | The variables set up before the loop are the loop state after 0 iterations. |
| Scoring.ScanCell | Assets/Scripts/Logic/ConnectFourLogic.cs:129-174 | The cell read is on the board. It is the end cell exactly when both axes are complete. An opposing chip there makes the whole window score 0. |
| Scoring.ScanLast | Assets/Scripts/Logic/ConnectFourLogic.cs:171-174 | Counting the end cell and leaving the loop yields the window's score. |
| Scoring.WalkOnNext | Assets/Scripts/Logic/ConnectFourLogic.cs:176-187 | Stepping from any cell but the end reaches the next cell of the walk, closer to the end. |
| Scoring.ScanNext | Assets/Scripts/Logic/ConnectFourLogic.cs:129-187 | Counting a cell and stepping on gives the loop state after one more iteration. |
| Scoring.TallyCell | Assets/Scripts/Logic/ConnectFourLogic.cs:131-168 | A chip that does not block adds its 3 or 1 points, then the multipliers of that chip. |
| Scoring.TallyEmpty | Assets/Scripts/Logic/ConnectFourLogic.cs:135-138 | A run of Empty cells scores one point per cell. |
| Scoring.AllEmptyWindow | Assets/Scripts/Logic/ConnectFourLogic.cs:131-168 | Four Empty cells score 4 for either player. |
| Scoring.ThreePlayerChipsFirst | Assets/Scripts/Logic/ConnectFourLogic.cs:131-168 | The chips Player, Player, Player, Empty score 382501 for Player. |
| Scoring.ThreePlayerChipsLast | Assets/Scripts/Logic/ConnectFourLogic.cs:131-168 | The chips Empty, Player, Player, Player score 445000 for Player, so the order of the chips matters. |
| Scoring.FourOfAKind | Assets/Scripts/Logic/ConnectFourLogic.cs:131-168 | Four own chips score 956257500 for Player and 15751500 for Computer. |
| Scoring.BoostMonotone | Assets/Scripts/Logic/ConnectFourLogic.cs:144-168 | The multipliers preserve the order of non-negative scores. |
| Scoring.TallyPeak | Assets/Scripts/Logic/ConnectFourLogic.cs:127-188 | No order of chips scores more than the same number of own chips. |
| Scoring.WindowScoreBound | Assets/Scripts/Logic/ConnectFourLogic.cs:117-191 | A straight 4-cell window scores at most 956257500 for Player and 15751500 for Computer. Every window GetCellScore builds is straight with 4 cells, so each of its window scores fits a 32-bit int. |
| Scoring.EmptyBoardWindow | Assets/Scripts/Logic/ConnectFourLogic.cs:117-191 | On an empty board, a window inside the grid scores one point per visited cell, and a straight 4-cell window scores 4. |
| Scoring.ScoreLeftToRight | Assets/Scripts/Logic/ConnectFourLogic.cs:117-191 | On any board whose bottom row starts Player, Player, Player, Empty, the window (0,0)→(3,0) scores 382501 for Player. |
| Scoring.ScoreRightToLeft | Assets/Scripts/Logic/ConnectFourLogic.cs:117-191 | On the same boards, the same cells walked (3,0)→(0,0) score 445000. The result depends on the direction of the walk. |
| Scoring.FirstCellBlocks | Assets/Scripts/Logic/ConnectFourLogic.cs:129-142 | A window whose start cell holds an opposing chip scores 0. |
| Scoring.WindowStart | Assets/Scripts/Logic/ConnectFourLogic.cs:66-79 | Defines the start cell GetCellScore passes for each index and direction: (col−index, row), (col−index, row−index), (col−index, row+index) or (col, row+index). |
| Scoring.WindowEnd | Assets/Scripts/Logic/ConnectFourLogic.cs:66-79 | Defines the matching end cell: three steps on from the start, along the same direction. |
| Scoring.WindowThroughCell | Assets/Scripts/Logic/ConnectFourLogic.cs:66-79 | The index-th window of each of the four families is a 4-cell line whose index-th cell is the evaluated cell. |
| Scoring.IndexScore | Assets/Scripts/Logic/ConnectFourLogic.cs:66-79 | The four window scores of one index are never negative in sum. |
| Scoring.IndexWindows | Assets/Scripts/Logic/ConnectFourLogic.cs:66-79 | The four windows of one index are the ones the source builds from col, row and index. |
| Scoring.ScoreUpTo | Assets/Scripts/Logic/ConnectFourLogic.cs:64-81 | The accumulated score of one chip type over the first indices is never negative. |
| Scoring.CellScore | Assets/Scripts/Logic/ConnectFourLogic.cs:60-86 | The cell score, Player's plus Computer's, is never negative. |
| WinRules.VerticalWin | Assets/Scripts/Logic/ConnectFourLogic.cs:251-261 | Defines the vertical scan: some column c and row r < RowCount−3 with four chips of the type at rows r .. r+3. |
| WinRules.HorizontalWin | Assets/Scripts/Logic/ConnectFourLogic.cs:264-274 | Defines the horizontal scan: some column c < ColumnCount−3 and row r with four chips of the type at columns c .. c+3. |
| WinRules.AscendingWin | Assets/Scripts/Logic/ConnectFourLogic.cs:277-285 | Defines the ascending-diagonal scan: c ≥ 3 and r < RowCount−3, cells (c−k, r+k) for k = 0 .. 3. |
| WinRules.DescendingWin | Assets/Scripts/Logic/ConnectFourLogic.cs:288-296 | Defines the descending-diagonal scan: c ≥ 3 and r ≥ 3, cells (c−k, r−k) for k = 0 .. 3. |
| WinRules.ScanWin | Assets/Scripts/Logic/ConnectFourLogic.cs:246-299 | Defines what CheckForWin finds: a hit in any of the four scans, in the source's order. |
| WinRules.FourReversed | Assets/Scripts/Logic/ConnectFourLogic.cs:246-299 | A line of four read from its other end is still a line of four. |
| WinRules.ScanWinSound | Assets/Scripts/Logic/ConnectFourLogic.cs:246-299 | Every hit of the four scans is a real line of four. |
| WinRules.ScanWinComplete | Assets/Scripts/Logic/ConnectFourLogic.cs:246-299 | The four scans' loop bounds miss no line of four on the board, in any of the eight directions. |
| WinRules.ScanWinExact | Assets/Scripts/Logic/ConnectFourLogic.cs:246-299 | The scans find a win exactly when a line of four exists. |
| WinRules.NoChipsNoWin | Assets/Scripts/Logic/ConnectFourLogic.cs:246-299 | A chip type absent from the board has no win. |
| WinRules.PlaceKeepsWin | Assets/Scripts/Logic/ConnectFourLogic.cs:212-215 | Writing a chip into an empty cell never removes a line of four. |
| WinRules.BottomRowWin | Assets/Scripts/Logic/ConnectFourLogic.cs:246-299 | Player chips in the four leftmost bottom cells win for Player and not for Computer. |
| WinRules.MixedShades | Assets/Scripts/Logic/ConnectFourLogic.cs:246-299 | The draw board follows a pattern of rows in pairs with columns alternating, except at its corner cell (0, 5). Along every unit line, four consecutive cells of that pattern never all share a colour. |
| WinRules.CornerLines | Assets/Scripts/Logic/ConnectFourLogic.cs:246-299 | On any board whose cells (1, 5), (0, 2) and (1, 4) hold Computer and (2, 5), (0, 4) and (3, 2) hold Player, none of the three lines of four through cell (0, 5) is a line of four. |
| WinRules.ShadedLine | Assets/Scripts/Logic/ConnectFourLogic.cs:246-299 | A line of the draw board that avoids cell (0, 5) is not a line of four. |
| WinRules.DrawBoardNoFour | Assets/Scripts/Logic/ConnectFourLogic.cs:246-299 | The draw board has no line of four of any chip type, in any direction. |
| WinRules.DrawBoardBalanced | Assets/Scripts/Logic/ConnectFourLogic.cs:301-312 | The draw board holds 21 Player and 21 Computer chips, as alternate turns leave a full board. |
| WinRules.DrawPossible | Assets/Scripts/Logic/ConnectFourLogic.cs:301-312 | A full board with 21 chips of each side can have no line of four. IsGameOver then reports the end while CheckForWin reports no win for either side, a draw. |

## Left out

- The Unity presentation layer (controller, columns, buttons) is not part of this model. That covers the MonoBehaviour lifecycle, coroutines, chip animation, highlighting and messages.
- The controller's search for the lowest empty row of a column is not modelled. It is the caller's obligation to pass `SetChipType` a valid cell. `SetChipType` enforces no gravity rule, as in the source.
- Engine.ConnectFourLogic.FindRandomColumn: the random number generator is replaced by a parameter `rolls`, the sequence of draws. The method requires that some draw hits a column that is not full. With a real generator, termination is only probabilistic; the model covers what the source guarantees about the column it returns.
- All arithmetic is on mathematical integers. C# 32-bit overflow of the sums in GetCellScore is not modelled. `Scoring.WindowScoreBound` shows that every window GetCellScore builds (straight, 4 cells) fits a 32-bit int.
- Engine.ConnectFourLogic.GetScore: on a window longer than 4 cells, the multipliers of lines 144-168 would overflow a C# `int` and wrap around; the model keeps the exact value. The program never builds such a window: GetCellScore only passes straight 4-cell windows.
- Engine.ConnectFourLogic.IsCellEmpty, Engine.ConnectFourLogic.SetChipType, Engine.ConnectFourLogic.IsColumnFull: the source throws ArgumentOutOfRangeException from the list indexer on an out-of-range column or row (lines 209, 214, 219-226). The model makes an in-range cell or column a precondition instead, so the exception path is not modelled.
- The board is an `array2` rather than a list of lists. The separate `InitialzeBoardMatrix` helper is the body of the constructor.
- In `GetScore`, the multiplier block and the e2 stepping block are the helper methods `ApplyMultipliers` and `StepAlongLine`. They are called in place, with the same effect on the loop variables.
- The doc comment on `BestColumns` describes a column selection that the code does not implement. The model follows the code, which returns an empty list. Any scoring or tie rule is left out.
- Commented-out logging is left out.
- Scoring.ScoreLeftToRight, Scoring.ScoreRightToLeft: these golden values are stated only for the bottom-left window, with its endpoints pinned by a precondition.
