// Win detection: four equal chips in a row, stated once as the source's
// four scans see it and once as an independent geometric definition.
module WinRules {
  import opened Board

  /** The four cells (c, r), (c+dc, r+dr), (c+2dc, r+2dr), (c+3dc, r+3dr)
      all lie in the grid and all hold t. */
  predicate Four(g: Grid, t: ChipType, c: int, r: int, dc: int, dr: int)
    requires WellFormed(g)
  {
    InGrid(Cell(c, r)) && InGrid(Cell(c + 3 * dc, r + 3 * dr)) &&
    g[c][r] == t && g[c + dc][r + dr] == t &&
    g[c + 2 * dc][r + 2 * dr] == t && g[c + 3 * dc][r + 3 * dr] == t
  }

  // The four scans of CheckForWin, with the ranges of their loops.

  /** (c, r) .. (c, r+3), for rows 0 .. RowCount-4 (lines 251-261). */
  predicate VerticalWin(g: Grid, t: ChipType)
    requires WellFormed(g)
  {
    exists c, r :: 0 <= r < RowCount - 3 && 0 <= c < ColumnCount && Four(g, t, c, r, 0, 1)
  }

  /** (c, r) .. (c+3, r), for columns 0 .. ColumnCount-4 (lines 264-274). */
  predicate HorizontalWin(g: Grid, t: ChipType)
    requires WellFormed(g)
  {
    exists c, r :: 0 <= c < ColumnCount - 3 && 0 <= r < RowCount && Four(g, t, c, r, 1, 0)
  }

  /** (c, r), (c-1, r+1), (c-2, r+2), (c-3, r+3) (lines 277-285). */
  predicate AscendingWin(g: Grid, t: ChipType)
    requires WellFormed(g)
  {
    exists c, r :: 3 <= c < ColumnCount && 0 <= r < RowCount - 3 && Four(g, t, c, r, -1, 1)
  }

  /** (c, r), (c-1, r-1), (c-2, r-2), (c-3, r-3) (lines 288-296). */
  predicate DescendingWin(g: Grid, t: ChipType)
    requires WellFormed(g)
  {
    exists c, r :: 3 <= c < ColumnCount && 3 <= r < RowCount && Four(g, t, c, r, -1, -1)
  }

  predicate ScanWin(g: Grid, t: ChipType)
    requires WellFormed(g)
  {
    VerticalWin(g, t) || HorizontalWin(g, t) || AscendingWin(g, t) || DescendingWin(g, t)
  }

  /** One of the eight unit directions of the grid. */
  predicate UnitDirection(dc: int, dr: int)
  {
    -1 <= dc <= 1 && -1 <= dr <= 1 && (dc != 0 || dr != 0)
  }

  /** Four chips of type t in a row, in any direction, anywhere on the board. */
  ghost predicate FourInARow(g: Grid, t: ChipType)
    requires WellFormed(g)
  {
    exists c, r, dc, dr :: UnitDirection(dc, dr) && Four(g, t, c, r, dc, dr)
  }

  /** The same four cells, walked from the other end. */
  lemma FourReversed(g: Grid, t: ChipType, c: int, r: int, dc: int, dr: int)
    requires WellFormed(g) && Four(g, t, c, r, dc, dr)
    ensures Four(g, t, c + 3 * dc, r + 3 * dr, -dc, -dr)
  {
  }

  /** Whatever the four scans find is a line of four. */
  lemma ScanWinSound(g: Grid, t: ChipType)
    requires WellFormed(g) && ScanWin(g, t)
    ensures FourInARow(g, t)
  {
    if VerticalWin(g, t) {
      var c, r :| 0 <= r < RowCount - 3 && 0 <= c < ColumnCount && Four(g, t, c, r, 0, 1);
      assert UnitDirection(0, 1);
    } else if HorizontalWin(g, t) {
      var c, r :| 0 <= c < ColumnCount - 3 && 0 <= r < RowCount && Four(g, t, c, r, 1, 0);
      assert UnitDirection(1, 0);
    } else if AscendingWin(g, t) {
      var c, r :| 3 <= c < ColumnCount && 0 <= r < RowCount - 3 && Four(g, t, c, r, -1, 1);
      assert UnitDirection(-1, 1);
    } else {
      var c, r :| 3 <= c < ColumnCount && 3 <= r < RowCount && Four(g, t, c, r, -1, -1);
      assert UnitDirection(-1, -1);
    }
  }

  /** The four scans between them find every line of four: their loop
      bounds leave out no line inside the grid. */
  lemma ScanWinComplete(g: Grid, t: ChipType)
    requires WellFormed(g) && FourInARow(g, t)
    ensures ScanWin(g, t)
  {
    var c, r, dc, dr :| UnitDirection(dc, dr) && Four(g, t, c, r, dc, dr);
    // Turn the line around when its direction is not one the scans use.
    var c', r', dc', dr' := c, r, dc, dr;
    if dc == 1 || (dc == 0 && dr == -1) {
      FourReversed(g, t, c, r, dc, dr);
      c', r', dc', dr' := c + 3 * dc, r + 3 * dr, -dc, -dr;
    }
    assert Four(g, t, c', r', dc', dr');
    if dc' == 0 {
      assert VerticalWin(g, t);
    } else if dr' == 0 {
      assert Four(g, t, c' - 3, r', 1, 0);
      assert HorizontalWin(g, t);
    } else if dr' == 1 {
      assert AscendingWin(g, t);
    } else {
      assert DescendingWin(g, t);
    }
  }

  /** The four scans decide exactly the existence of a line of four. */
  lemma ScanWinExact(g: Grid, t: ChipType)
    requires WellFormed(g)
    ensures ScanWin(g, t) <==> FourInARow(g, t)
  {
    if ScanWin(g, t) {
      ScanWinSound(g, t);
    }
    if FourInARow(g, t) {
      ScanWinComplete(g, t);
    }
  }

  /** A chip type with no chip on the board has no line of four. */
  lemma NoChipsNoWin(g: Grid, t: ChipType)
    requires WellFormed(g)
    requires forall c, r :: 0 <= c < ColumnCount && 0 <= r < RowCount ==> g[c][r] != t
    ensures !FourInARow(g, t)
  {
  }

  /** Writing a chip into an empty cell keeps every line of four already
      on the board: its cells all hold a chip. */
  lemma PlaceKeepsWin(g: Grid, c: int, r: int, x: ChipType, t: ChipType)
    requires WellFormed(g) && 0 <= c < ColumnCount && 0 <= r < RowCount
    requires g[c][r] == Empty && t != Empty && FourInARow(g, t)
    ensures FourInARow(Place(g, c, r, x), t)
  {
    var c0, r0, dc, dr :| UnitDirection(dc, dr) && Four(g, t, c0, r0, dc, dr);
    assert Four(Place(g, c, r, x), t, c0, r0, dc, dr);
  }

  /** The colour parity of cell (c, r) in the draw pattern: rows go in
      pairs and neighbouring columns alternate. */
  function Shade(c: int, r: int): int
  {
    (r / 2 + c) % 2
  }

  /** A full board in that pattern, except for the top cell of column 0,
      which holds Computer so that each side has 21 chips. */
  function DrawBoard(): (g: Grid)
    ensures WellFormed(g)
    ensures forall c, r :: 0 <= c < ColumnCount && 0 <= r < RowCount ==>
              g[c][r] == (if c == 0 && r == 5 then Computer
                          else if Shade(c, r) == 0 then Player else Computer)
  {
    seq(ColumnCount, c => seq(RowCount, r => if c == 0 && r == 5 then Computer
                                             else if Shade(c, r) == 0 then Player else Computer))
  }

  /** The number of chips of type t among the first n cells of a column. */
  function CountIn(column: seq<ChipType>, t: ChipType, n: nat): (k: nat)
    requires n <= |column|
    ensures k <= n
  {
    if n == 0 then 0 else CountIn(column, t, n - 1) + (if column[n - 1] == t then 1 else 0)
  }

  /** The number of chips of type t in columns 0 .. n-1. */
  function ChipsInColumns(g: Grid, t: ChipType, n: nat): (k: nat)
    requires WellFormed(g) && n <= ColumnCount
    ensures k <= n * RowCount
  {
    if n == 0 then 0 else ChipsInColumns(g, t, n - 1) + CountIn(g[n - 1], t, RowCount)
  }

  /** The two column patterns of DrawBoard away from column 0. */
  lemma DrawColumns(c: int)
    requires 1 <= c < ColumnCount
    ensures DrawBoard()[c] == if c % 2 == 0 then [Player, Player, Computer, Computer, Player, Player]
                              else [Computer, Computer, Player, Player, Computer, Computer]
  {
  }

  /** Chip counts of the three column patterns of DrawBoard. */
  lemma FirstColumnCounts(column: seq<ChipType>)
    requires column == [Player, Player, Computer, Computer, Player, Computer]
    ensures CountIn(column, Player, RowCount) == 3 && CountIn(column, Computer, RowCount) == 3
  {
    assert CountIn(column, Player, 1) == 1 && CountIn(column, Computer, 1) == 0;
    assert CountIn(column, Player, 2) == 2 && CountIn(column, Computer, 2) == 0;
    assert CountIn(column, Player, 3) == 2 && CountIn(column, Computer, 3) == 1;
    assert CountIn(column, Player, 4) == 2 && CountIn(column, Computer, 4) == 2;
    assert CountIn(column, Player, 5) == 3 && CountIn(column, Computer, 5) == 2;
  }

  lemma EvenColumnCounts(column: seq<ChipType>)
    requires column == [Player, Player, Computer, Computer, Player, Player]
    ensures CountIn(column, Player, RowCount) == 4 && CountIn(column, Computer, RowCount) == 2
  {
    assert CountIn(column, Player, 1) == 1 && CountIn(column, Computer, 1) == 0;
    assert CountIn(column, Player, 2) == 2 && CountIn(column, Computer, 2) == 0;
    assert CountIn(column, Player, 3) == 2 && CountIn(column, Computer, 3) == 1;
    assert CountIn(column, Player, 4) == 2 && CountIn(column, Computer, 4) == 2;
    assert CountIn(column, Player, 5) == 3 && CountIn(column, Computer, 5) == 2;
  }

  lemma OddColumnCounts(column: seq<ChipType>)
    requires column == [Computer, Computer, Player, Player, Computer, Computer]
    ensures CountIn(column, Player, RowCount) == 2 && CountIn(column, Computer, RowCount) == 4
  {
    assert CountIn(column, Player, 1) == 0 && CountIn(column, Computer, 1) == 1;
    assert CountIn(column, Player, 2) == 0 && CountIn(column, Computer, 2) == 2;
    assert CountIn(column, Player, 3) == 1 && CountIn(column, Computer, 3) == 2;
    assert CountIn(column, Player, 4) == 2 && CountIn(column, Computer, 4) == 2;
    assert CountIn(column, Player, 5) == 2 && CountIn(column, Computer, 5) == 3;
  }

  /** Summing the per-column counts of t over the seven columns. */
  lemma ColumnSums(g: Grid, t: ChipType, first: nat, even: nat, odd: nat)
    requires WellFormed(g)
    requires CountIn(g[0], t, RowCount) == first
    requires CountIn(g[2], t, RowCount) == CountIn(g[4], t, RowCount) == CountIn(g[6], t, RowCount) == even
    requires CountIn(g[1], t, RowCount) == CountIn(g[3], t, RowCount) == CountIn(g[5], t, RowCount) == odd
    ensures ChipsInColumns(g, t, ColumnCount) == first + 3 * even + 3 * odd
  {
    assert ChipsInColumns(g, t, 1) == first;
    assert ChipsInColumns(g, t, 3) == first + odd + even;
    assert ChipsInColumns(g, t, 5) == first + 2 * odd + 2 * even;
  }

  /** DrawBoard holds 21 chips of each side, as many as alternate turns
      place on a full board. */
  lemma DrawBoardBalanced()
    ensures ChipsInColumns(DrawBoard(), Player, ColumnCount) == 21
    ensures ChipsInColumns(DrawBoard(), Computer, ColumnCount) == 21
  {
    var g := DrawBoard();
    FirstColumnCounts(g[0]);
    DrawColumns(1); DrawColumns(2); DrawColumns(3); DrawColumns(4); DrawColumns(5); DrawColumns(6);
    EvenColumnCounts(g[2]); EvenColumnCounts(g[4]); EvenColumnCounts(g[6]);
    OddColumnCounts(g[1]); OddColumnCounts(g[3]); OddColumnCounts(g[5]);
    ColumnSums(g, Player, 3, 4, 2);
    ColumnSums(g, Computer, 3, 2, 4);
  }

  /** How halving moves along four consecutive rows. */
  lemma RowHalves(r: int)
    ensures r % 2 == 0 ==> (r + 1) / 2 == r / 2 && (r + 2) / 2 == r / 2 + 1 && (r + 3) / 2 == r / 2 + 1
    ensures r % 2 == 0 ==> (r - 1) / 2 == r / 2 - 1 && (r - 2) / 2 == r / 2 - 1 && (r - 3) / 2 == r / 2 - 2
    ensures r % 2 == 1 ==> (r + 1) / 2 == r / 2 + 1 && (r + 2) / 2 == r / 2 + 1 && (r + 3) / 2 == r / 2 + 2
    ensures r % 2 == 1 ==> (r - 1) / 2 == r / 2 && (r - 2) / 2 == r / 2 - 1 && (r - 3) / 2 == r / 2 - 1
  {
    assert r == 2 * (r / 2) + r % 2;
  }

  /** Along any unit line, four consecutive cells of the draw pattern do
      not all have the same shade. */
  lemma MixedShades(c: int, r: int, dc: int, dr: int)
    requires UnitDirection(dc, dr)
    ensures !(Shade(c, r) == Shade(c + dc, r + dr) == Shade(c + 2 * dc, r + 2 * dr) == Shade(c + 3 * dc, r + 3 * dr))
  {
    RowHalves(r);
  }

  /** The three lines of four through cell (0, 5) (along row 5, up
      column 0 and down the diagonal to (3, 2)) each hold both chip types
      once the named cells do. */
  lemma CornerLines(g: Grid, t: ChipType, c: int, r: int, dc: int, dr: int)
    requires WellFormed(g) && UnitDirection(dc, dr)
    requires (c, r) == (0, 5) || (c + dc, r + dr) == (0, 5) ||
             (c + 2 * dc, r + 2 * dr) == (0, 5) || (c + 3 * dc, r + 3 * dr) == (0, 5)
    requires g[1][5] == Computer && g[2][5] == Player
    requires g[0][2] == Computer && g[0][4] == Player
    requires g[1][4] == Computer && g[3][2] == Player
    ensures !Four(g, t, c, r, dc, dr)
  {
  }

  /** The cells of DrawBoard that CornerLines names. */
  lemma DrawCornerCells()
    ensures DrawBoard()[1][5] == Computer && DrawBoard()[2][5] == Player
    ensures DrawBoard()[0][2] == Computer && DrawBoard()[0][4] == Player
    ensures DrawBoard()[1][4] == Computer && DrawBoard()[3][2] == Player
  {
    var g := DrawBoard();
    assert g[1][5] == Computer && g[2][5] == Player;
    assert g[0][2] == Computer && g[0][4] == Player;
    assert g[1][4] == Computer && g[3][2] == Player;
  }

  /** A line of DrawBoard away from cell (0, 5) follows the shade pattern,
      so its cells are not all of one type. */
  lemma ShadedLine(t: ChipType, c: int, r: int, dc: int, dr: int)
    requires UnitDirection(dc, dr)
    requires (c, r) != (0, 5) && (c + dc, r + dr) != (0, 5) &&
             (c + 2 * dc, r + 2 * dr) != (0, 5) && (c + 3 * dc, r + 3 * dr) != (0, 5)
    ensures !Four(DrawBoard(), t, c, r, dc, dr)
  {
    if Four(DrawBoard(), t, c, r, dc, dr) {
      MixedShades(c, r, dc, dr);
    }
  }

  /** So DrawBoard holds no line of four of any chip type: a line away
      from the changed corner has mixed shades, and each of the three lines
      through the corner holds both chip types. */
  lemma DrawBoardNoFour(t: ChipType, c: int, r: int, dc: int, dr: int)
    requires UnitDirection(dc, dr)
    ensures !Four(DrawBoard(), t, c, r, dc, dr)
  {
    if (c, r) == (0, 5) || (c + dc, r + dr) == (0, 5) ||
       (c + 2 * dc, r + 2 * dr) == (0, 5) || (c + 3 * dc, r + 3 * dr) == (0, 5)
    {
      DrawCornerCells();
      CornerLines(DrawBoard(), t, c, r, dc, dr);
    } else {
      ShadedLine(t, c, r, dc, dr);
    }
  }

  /** The board can fill up with no line of four: the game then ends in a
      draw, which IsGameOver reports and CheckForWin does not. */
  lemma DrawPossible()
    ensures BoardFull(DrawBoard())
    ensures ChipsInColumns(DrawBoard(), Player, ColumnCount) == ChipsInColumns(DrawBoard(), Computer, ColumnCount) == 21
    ensures !FourInARow(DrawBoard(), Player) && !FourInARow(DrawBoard(), Computer)
  {
    DrawBoardBalanced();
    forall t, c, r, dc, dr | UnitDirection(dc, dr)
      ensures !Four(DrawBoard(), t, c, r, dc, dr)
    {
      DrawBoardNoFour(t, c, r, dc, dr);
    }
  }

  /** Player chips dropped into columns 0, 1, 2 and 3 of an empty board. */
  function FourInBottomRow(): (g: Grid)
    ensures WellFormed(g)
  {
    Place(Place(Place(Place(EmptyGrid(), 0, 0, Player), 1, 0, Player), 2, 0, Player), 3, 0, Player)
  }

  /** That board is a win for Player and not for Computer. */
  lemma BottomRowWin()
    ensures FourInARow(FourInBottomRow(), Player)
    ensures !FourInARow(FourInBottomRow(), Computer)
  {
    var g := FourInBottomRow();
    assert UnitDirection(1, 0) && Four(g, Player, 0, 0, 1, 0);
    NoChipsNoWin(g, Computer);
  }
}
