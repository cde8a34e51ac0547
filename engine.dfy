// The ConnectFourLogic engine: the board held as a 7x6 array that the
// methods read and update in place, each method specified by the pure
// definitions of the Board, LineWalk, Scoring and WinRules modules.
module Engine {
  import opened Board
  import opened LineWalk
  import opened Scoring
  import opened WinRules

  class ConnectFourLogic {
    /** BoardMatrix: board[c, r] is the chip in column c, row r. */
    var board: array2<ChipType>
    /** The abstract value of the board. */
    ghost var Cells: Grid

    ghost predicate Valid()
      reads this, board
    {
      board.Length0 == ColumnCount && board.Length1 == RowCount && WellFormed(Cells) &&
      forall c, r :: 0 <= c < ColumnCount && 0 <= r < RowCount ==> board[c, r] == Cells[c][r]
    }

    /** A new engine holds an empty 7x6 board (InitialzeBoardMatrix). */
    constructor ()
      ensures Valid() && fresh(board)
      ensures Cells == EmptyGrid()
    {
      var matrix := new ChipType[ColumnCount, RowCount];
      for c := 0 to ColumnCount
        invariant forall c', r :: 0 <= c' < c && 0 <= r < RowCount ==> matrix[c', r] == Empty
      {
        for r := 0 to RowCount
          invariant forall c', r' :: 0 <= c' < c && 0 <= r' < RowCount ==> matrix[c', r'] == Empty
          invariant forall r' :: 0 <= r' < r ==> matrix[c, r'] == Empty
        {
          matrix[c, r] := Empty;
        }
      }
      board := matrix;
      Cells := EmptyGrid();
    }

    /** Empties every cell in place; the array and its dimensions stay. */
    method ResetBoardMatrix()
      requires Valid()
      modifies this`Cells, board
      ensures Valid()
      ensures Cells == EmptyGrid()
    {
      for c := 0 to ColumnCount
        invariant forall c', r :: 0 <= c' < c && 0 <= r < RowCount ==> board[c', r] == Empty
      {
        for r := 0 to RowCount
          invariant forall c', r' :: 0 <= c' < c && 0 <= r' < RowCount ==> board[c', r'] == Empty
          invariant forall r' :: 0 <= r' < r ==> board[c, r'] == Empty
        {
          board[c, r] := Empty;
        }
      }
      Cells := EmptyGrid();
    }

    method IsCellEmpty(column: int, row: int) returns (empty: bool)
      requires Valid()
      requires 0 <= column < ColumnCount && 0 <= row < RowCount
      ensures empty <==> Cells[column][row] == Empty
    {
      empty := board[column, row] == Empty;
    }

    /** Writes one cell; no rule of the game is checked here. */
    method SetChipType(column: int, row: int, chip: ChipType)
      requires Valid()
      requires 0 <= column < ColumnCount && 0 <= row < RowCount
      modifies this`Cells, board
      ensures Valid()
      ensures Cells == Place(old(Cells), column, row, chip)
      ensures Cells[column][row] == chip
      ensures forall c, r :: 0 <= c < ColumnCount && 0 <= r < RowCount && (c, r) != (column, row) ==>
                Cells[c][r] == old(Cells)[c][r]
    {
      board[column, row] := chip;
      Cells := Place(Cells, column, row, chip);
    }

    method IsColumnFull(column: int) returns (full: bool)
      requires Valid()
      requires 0 <= column < ColumnCount
      ensures full <==> ColumnFull(Cells, column)
    {
      for r := 0 to RowCount
        invariant forall r' :: 0 <= r' < r ==> Cells[column][r'] != Empty
      {
        if board[column, r] == Empty {
          return false;
        }
      }
      return true;
    }

    /** The board is full: the game ends in a draw unless someone has won. */
    method IsGameOver() returns (over: bool)
      requires Valid()
      ensures over <==> BoardFull(Cells)
    {
      for c := 0 to ColumnCount
        invariant forall c' :: 0 <= c' < c ==> ColumnFull(Cells, c')
      {
        var full := IsColumnFull(c);
        if !full {
          return false;
        }
      }
      return true;
    }

    /** Rejection sampling of a column that is not full. The random draws
        are the parameter rolls, in the order Random.Range would return them;
        the method returns the first draw whose column is not full. */
    method FindRandomColumn(rolls: seq<int>) returns (column: int)
      requires Valid()
      requires forall k :: 0 <= k < |rolls| ==> 0 <= rolls[k] < ColumnCount
      requires exists k :: 0 <= k < |rolls| && !ColumnFull(Cells, rolls[k])
      ensures 0 <= column < ColumnCount && !ColumnFull(Cells, column)
      ensures exists k :: 0 <= k < |rolls| && rolls[k] == column &&
                forall k' :: 0 <= k' < k ==> ColumnFull(Cells, rolls[k'])
    {
      var n := 0;
      while true
        invariant 0 <= n <= |rolls|
        invariant forall k' :: 0 <= k' < n ==> ColumnFull(Cells, rolls[k'])
        invariant exists k :: n <= k < |rolls| && !ColumnFull(Cells, rolls[k])
        decreases |rolls| - n
      {
        var randomColumn := rolls[n];
        var full := IsColumnFull(randomColumn);
        if !full {
          return randomColumn;
        }
        n := n + 1;
      }
    }

    /** Scans the whole board for four chips of the given type in a row. */
    method CheckForWin(chip: ChipType) returns (win: bool)
      requires Valid()
      ensures win <==> FourInARow(Cells, chip)
    {
      // vertical
      for r := 0 to RowCount - 3
        invariant forall c', r' :: 0 <= r' < r && 0 <= c' < ColumnCount ==> !Four(Cells, chip, c', r', 0, 1)
      {
        for c := 0 to ColumnCount
          invariant forall c', r' :: 0 <= r' < r && 0 <= c' < ColumnCount ==> !Four(Cells, chip, c', r', 0, 1)
          invariant forall c' :: 0 <= c' < c ==> !Four(Cells, chip, c', r, 0, 1)
        {
          if board[c, r] == chip && board[c, r + 1] == chip
             && board[c, r + 2] == chip && board[c, r + 3] == chip
          {
            assert UnitDirection(0, 1) && Four(Cells, chip, c, r, 0, 1);
            return true;
          }
        }
      }
      assert !VerticalWin(Cells, chip);
      // horizontal
      for c := 0 to ColumnCount - 3
        invariant forall c', r' :: 0 <= c' < c && 0 <= r' < RowCount ==> !Four(Cells, chip, c', r', 1, 0)
      {
        for r := 0 to RowCount
          invariant forall c', r' :: 0 <= c' < c && 0 <= r' < RowCount ==> !Four(Cells, chip, c', r', 1, 0)
          invariant forall r' :: 0 <= r' < r ==> !Four(Cells, chip, c, r', 1, 0)
        {
          if board[c, r] == chip && board[c + 1, r] == chip
             && board[c + 2, r] == chip && board[c + 3, r] == chip
          {
            assert UnitDirection(1, 0) && Four(Cells, chip, c, r, 1, 0);
            return true;
          }
        }
      }
      assert !HorizontalWin(Cells, chip);
      // ascending diagonal
      for c := 3 to ColumnCount
        invariant forall c', r' :: 3 <= c' < c && 0 <= r' < RowCount - 3 ==> !Four(Cells, chip, c', r', -1, 1)
      {
        for r := 0 to RowCount - 3
          invariant forall c', r' :: 3 <= c' < c && 0 <= r' < RowCount - 3 ==> !Four(Cells, chip, c', r', -1, 1)
          invariant forall r' :: 0 <= r' < r ==> !Four(Cells, chip, c, r', -1, 1)
        {
          if board[c, r] == chip && board[c - 1, r + 1] == chip
             && board[c - 2, r + 2] == chip && board[c - 3, r + 3] == chip
          {
            assert UnitDirection(-1, 1) && Four(Cells, chip, c, r, -1, 1);
            return true;
          }
        }
      }
      assert !AscendingWin(Cells, chip);
      // descending diagonal
      for i := 3 to ColumnCount
        invariant forall c', r' :: 3 <= c' < i && 3 <= r' < RowCount ==> !Four(Cells, chip, c', r', -1, -1)
      {
        for j := 3 to RowCount
          invariant forall c', r' :: 3 <= c' < i && 3 <= r' < RowCount ==> !Four(Cells, chip, c', r', -1, -1)
          invariant forall r' :: 3 <= r' < j ==> !Four(Cells, chip, i, r', -1, -1)
        {
          if board[i, j] == chip && board[i - 1, j - 1] == chip
             && board[i - 2, j - 2] == chip && board[i - 3, j - 3] == chip
          {
            assert UnitDirection(-1, -1) && Four(Cells, chip, i, j, -1, -1);
            return true;
          }
        }
      }
      assert !DescendingWin(Cells, chip);
      ScanWinExact(Cells, chip);
      return false;
    }

    /** The move to the next cell of the line (lines 176-187): a column
        step when 2 * err > -dy, a row step when 2 * err < dx, or both. */
    static method StepAlongLine(c: int, r: int, err: int, dx: int, dy: int, sx: int, sy: int)
      returns (c': int, r': int, err': int)
      ensures c' == (if 2 * err > 0 - dy then c + sx else c)
      ensures r' == (if 2 * err < dx then r + sy else r)
      ensures err' == err - (if 2 * err > 0 - dy then dy else 0) + (if 2 * err < dx then dx else 0)
    {
      c', r', err' := c, r, err;
      var e2 := 2 * err;
      if e2 > -dy {
        err' := err' - dy;
        c' := c' + sx;
      }
      if e2 < dx {
        err' := err' + dx;
        r' := r' + sy;
      }
    }

    /** The two threshold multipliers applied after each cell (lines 144-168). */
    static method ApplyMultipliers(score: int, chip: ChipType) returns (boosted: int)
      ensures boosted == Boost(score, chip)
    {
      boosted := score;
      if boosted >= 9 {
        if chip == Player {
          boosted := boosted * 100;
        } else if chip == Computer {
          boosted := boosted * 50;
        }
      }
      if boosted >= 6 {
        if chip == Player {
          boosted := boosted * 25;
        } else if chip == Computer {
          boosted := boosted * 10;
        }
      }
    }

    /** Scores the window from startCell to endCell for forChipType by
        walking its cells with the integer line-stepping loop. */
    method GetScore(startCell: Cell, endCell: Cell, forChipType: ChipType) returns (score: int)
      requires Valid()
      ensures score == WindowScore(Cells, startCell, endCell, forChipType)
    {
      var startCol, startRow := startCell.col, startCell.row;
      var endCol, endRow := endCell.col, endCell.row;
      if startRow < 0 || startRow >= RowCount || endRow < 0 || endRow >= RowCount
         || startCol < 0 || startCol >= ColumnCount || endCol < 0 || endCol >= ColumnCount
      {
        return 0;
      }

      score := 0;
      var c, r := startCol, startRow;
      var dx, dy := Abs(endCol - startCol), Abs(endRow - startRow);
      var sx := if startCol < endCol then 1 else -1;
      var sy := if startRow < endRow then 1 else -1;
      var err := dx - dy;

      // i and j count the steps taken along each axis, n the cells read
      ghost var i: nat, j: nat, n: nat := 0, 0, 0;
      ScanStart(Cells, startCell, endCell, forChipType);
      while true
        invariant Scanning(Cells, startCell, endCell, forChipType, dx, dy, sx, sy, c, r, err, score, i, j, n)
        decreases (dx - i) + (dy - j)
      {
        ScanCell(Cells, startCell, endCell, forChipType, dx, dy, sx, sy, c, r, err, score, i, j, n);
        ghost var counted := score;
        var chip := board[c, r];
        if chip == forChipType {
          score := score + 3;
        } else if chip == Empty {
          score := score + 1;
        } else {
          return 0;
        }

        score := ApplyMultipliers(score, chip);

        if c == endCol && r == endRow {
          ScanLast(Cells, startCell, endCell, forChipType, dx, dy, sx, sy, c, r, err, counted, i, j, n);
          break;
        }

        ghost var c0, r0, err0 := c, r, err;
        c, r, err := StepAlongLine(c, r, err, dx, dy, sx, sy);
        ScanNext(Cells, startCell, endCell, forChipType, dx, dy, sx, sy, c0, r0, err0, counted, i, j, n,
                 c, r, err, score);
        ghost var seg := SegmentOf(startCell, endCell);
        i, j, n := NextColumn(seg, i, j), NextRow(seg, i, j), n + 1;
      }
    }

    /** The combined Player and Computer score of every window through
        (col, row). */
    method GetCellScore(col: int, row: int) returns (total: int)
      requires Valid()
      ensures total == CellScore(Cells, col, row)
      ensures total >= 0
    {
      var playerScore := 0;
      var computerScore := 0;

      var index := 0;
      while index <= 3
        invariant 0 <= index <= 4
        invariant playerScore == ScoreUpTo(Cells, col, row, index, Player)
        invariant computerScore == ScoreUpTo(Cells, col, row, index, Computer)
      {
        var s: int;
        // horizontal
        s := GetScore(Cell(col - index, row), Cell(col - index + 3, row), Player);
        playerScore := playerScore + s;
        s := GetScore(Cell(col - index, row), Cell(col - index + 3, row), Computer);
        computerScore := computerScore + s;
        // ascending left to right
        s := GetScore(Cell(col - index, row - index), Cell(col - index + 3, row - index + 3), Player);
        playerScore := playerScore + s;
        s := GetScore(Cell(col - index, row - index), Cell(col - index + 3, row - index + 3), Computer);
        computerScore := computerScore + s;
        // descending left to right
        s := GetScore(Cell(col - index, row + index), Cell(col - index + 3, row + index - 3), Player);
        playerScore := playerScore + s;
        s := GetScore(Cell(col - index, row + index), Cell(col - index + 3, row + index - 3), Computer);
        computerScore := computerScore + s;
        // down
        s := GetScore(Cell(col, row + index), Cell(col, row + index - 3), Player);
        playerScore := playerScore + s;
        s := GetScore(Cell(col, row + index), Cell(col, row + index - 3), Computer);
        computerScore := computerScore + s;
        IndexWindows(Cells, col, row, index, Player);
        IndexWindows(Cells, col, row, index, Computer);
        index := index + 1;
      }

      total := playerScore + computerScore;
    }

    /** The move selector as it stands: no column is ever proposed. */
    method BestColumns() returns (columns: seq<int>)
      ensures columns == []
    {
      columns := [];
    }
  }
}
