// Scoring of one 4-cell window (GetScore) and of all the windows through a
// cell (GetCellScore), as functions of the board.
module Scoring {
  import opened Board
  import opened LineWalk

  datatype Option<T> = None | Some(value: T)

  /** A chip that blocks a window for forType: an opposing chip. */
  predicate Blocks(chip: ChipType, forType: ChipType)
  {
    chip != forType && chip != Empty
  }

  /** The threshold multipliers applied after a cell has been counted:
      first at 9 or more (x100 for Player, x50 for Computer), then, on the
      possibly multiplied score, at 6 or more (x25, x10). The multiplier is
      chosen by the chip just counted; an Empty cell multiplies nothing. */
  function Boost(score: int, chip: ChipType): (b: int)
    ensures score >= 0 ==> b >= score
    ensures chip == Empty ==> b == score
  {
    var high := if score >= 9 then
                  (if chip == Player then score * 100
                   else if chip == Computer then score * 50
                   else score)
                else score;
    if high >= 6 then
      (if chip == Player then high * 25
       else if chip == Computer then high * 10
       else high)
    else high
  }

  /** One iteration of the scan: 3 for an own chip, 1 for an Empty cell,
      then the multipliers; None when the chip blocks the window. */
  function Count(score: int, chip: ChipType, forType: ChipType): (r: Option<int>)
    ensures r.None? <==> Blocks(chip, forType)
    ensures r.Some? && score >= 0 ==> r.value > score
  {
    if chip == forType then Some(Boost(score + 3, chip))
    else if chip == Empty then Some(Boost(score + 1, chip))
    else None
  }

  /** The running score after counting the chips in walk order, None as
      soon as one of them blocks the window. */
  function Tally(chips: seq<ChipType>, forType: ChipType): (r: Option<int>)
    ensures r.Some? ==> r.value >= |chips|
  {
    if chips == [] then Some(0)
    else
      match Tally(chips[..|chips| - 1], forType)
      case None => None
      case Some(s) => Count(s, chips[|chips| - 1], forType)
  }

  /** Counting one more chip of a sequence. */
  lemma TallyNext(chips: seq<ChipType>, n: nat, forType: ChipType)
    requires n < |chips|
    ensures Tally(chips[..n + 1], forType) ==
            match Tally(chips[..n], forType)
            case None => None
            case Some(s) => Count(s, chips[n], forType)
  {
    assert chips[..n + 1][..n] == chips[..n];
  }

  /** The chips on a sequence of cells of the grid. */
  function Chips(g: Grid, cells: seq<Cell>): (chips: seq<ChipType>)
    requires WellFormed(g)
    requires forall k :: 0 <= k < |cells| ==> InGrid(cells[k])
    ensures |chips| == |cells|
    ensures forall k :: 0 <= k < |cells| ==> chips[k] == At(g, cells[k])
  {
    seq(|cells|, k requires 0 <= k < |cells| => At(g, cells[k]))
  }

  /** The chips GetScore reads, in order, for a window inside the grid. */
  function WindowChips(g: Grid, s: Cell, e: Cell): (chips: seq<ChipType>)
    requires WellFormed(g) && InGrid(s) && InGrid(e)
    ensures |chips| == |Path(s, e)|
  {
    PathInGrid(s, e);
    Chips(g, Path(s, e))
  }

  /** The score of the window from s to e for forType (GetScore). */
  function WindowScore(g: Grid, s: Cell, e: Cell, forType: ChipType): (score: int)
    requires WellFormed(g)
    ensures score >= 0
  {
    if !InGrid(s) || !InGrid(e) then 0
    else
      match Tally(WindowChips(g, s, e), forType)
      case None => 0
      case Some(v) => v
  }

  /** Some cell of the window holds an opposing chip. */
  predicate Blocked(g: Grid, s: Cell, e: Cell, forType: ChipType)
    requires WellFormed(g) && InGrid(s) && InGrid(e)
  {
    var chips := WindowChips(g, s, e);
    exists k :: 0 <= k < |chips| && Blocks(chips[k], forType)
  }

  /** A tally fails exactly when one of the chips blocks. */
  lemma {:induction false} TallyBlocked(chips: seq<ChipType>, forType: ChipType)
    ensures Tally(chips, forType).None? <==>
            exists k :: 0 <= k < |chips| && Blocks(chips[k], forType)
    decreases |chips|
  {
    if chips != [] {
      var init := chips[..|chips| - 1];
      TallyBlocked(init, forType);
      if Tally(init, forType).None? {
        var k :| 0 <= k < |init| && Blocks(init[k], forType);
        assert chips[k] == init[k];
      } else if exists k :: 0 <= k < |chips| && Blocks(chips[k], forType) {
        var k :| 0 <= k < |chips| && Blocks(chips[k], forType);
        if k < |init| {
          assert init[k] == chips[k];
        }
      }
    }
  }

  /** GetScore returns 0 exactly when an endpoint is off the board or the
      window holds an opposing chip; every other window scores at least one
      point per cell it visits. */
  lemma WindowScoreZero(g: Grid, s: Cell, e: Cell, forType: ChipType)
    requires WellFormed(g)
    ensures WindowScore(g, s, e, forType) == 0 <==>
            !InGrid(s) || !InGrid(e) || Blocked(g, s, e, forType)
    ensures InGrid(s) && InGrid(e) && !Blocked(g, s, e, forType) ==>
            WindowScore(g, s, e, forType) >= |Path(s, e)|
  {
    if InGrid(s) && InGrid(e) {
      TallyBlocked(WindowChips(g, s, e), forType);
    }
  }

  /** Once a window is blocked, reading further cells does not unblock it. */
  lemma {:induction false} TallyBlockedPrefix(a: seq<ChipType>, b: seq<ChipType>, forType: ChipType)
    requires Tally(a, forType).None?
    ensures Tally(a + b, forType).None?
    decreases |b|
  {
    if b != [] {
      var init := b[..|b| - 1];
      TallyBlockedPrefix(a, init, forType);
      assert (a + b)[..|a + b| - 1] == a + init;
    } else {
      assert a + b == a;
    }
  }

  // The state of GetScore's loop (lines 127-188) just before it reads the
  // n-th cell of the window, and what one iteration makes of it.

  /** After n iterations of the loop, (i, j) are the step counts reached,
      (c, r) and err the source's position and error term for them, and
      the window goes on at least to its n-th cell. */
  ghost predicate OnWalk(s: Cell, e: Cell, dx: nat, dy: nat, sx: int, sy: int,
                         c: int, r: int, err: int, i: nat, j: nat, n: nat)
  {
    var seg := SegmentOf(s, e);
    seg == Segment(s, dx, dy, sx, sy) && (i, j) == Steps(seg, n) &&
    Cell(c, r) == Position(seg, i, j) && err == Err(seg, i, j) && n < |Path(s, e)|
  }

  /** The loop state: on the walk, with score the running score of the
      first n chips read. */
  ghost predicate Scanning(g: Grid, s: Cell, e: Cell, t: ChipType,
                           dx: nat, dy: nat, sx: int, sy: int,
                           c: int, r: int, err: int, score: int, i: nat, j: nat, n: nat)
  {
    WellFormed(g) && InGrid(s) && InGrid(e) &&
    OnWalk(s, e, dx, dy, sx, sy, c, r, err, i, j, n) &&
    Tally(WindowChips(g, s, e)[..n], t) == Some(score)
  }

  /** The state before the first iteration (lines 117-125). */
  lemma ScanStart(g: Grid, s: Cell, e: Cell, t: ChipType)
    requires WellFormed(g) && InGrid(s) && InGrid(e)
    ensures Scanning(g, s, e, t, Abs(e.col - s.col), Abs(e.row - s.row),
                     if s.col < e.col then 1 else -1, if s.row < e.row then 1 else -1,
                     s.col, s.row, Abs(e.col - s.col) - Abs(e.row - s.row), 0, 0, 0, 0)
  {
    assert WindowChips(g, s, e)[..0] == [];
  }

  /** The cell the loop reads is on the board; it is the end cell exactly
      when the step counts are complete; and an opposing chip there makes
      the whole window score 0. */
  lemma ScanCell(g: Grid, s: Cell, e: Cell, t: ChipType, dx: nat, dy: nat, sx: int, sy: int,
                 c: int, r: int, err: int, score: int, i: nat, j: nat, n: nat)
    requires Scanning(g, s, e, t, dx, dy, sx, sy, c, r, err, score, i, j, n)
    ensures InGrid(Cell(c, r)) && i <= dx && j <= dy
    ensures (c == e.col && r == e.row) <==> (i == dx && j == dy)
    ensures Blocks(g[c][r], t) ==> WindowScore(g, s, e, t) == 0
  {
    var seg := SegmentOf(s, e);
    var chips := WindowChips(g, s, e);
    PathInGrid(s, e);
    PathAt(s, e, n);
    WalkLast(seg, i, j);
    assert chips[n] == g[c][r];
    if Blocks(g[c][r], t) {
      TallyNext(chips, n, t);
      assert chips == chips[..n + 1] + chips[n + 1..];
      TallyBlockedPrefix(chips[..n + 1], chips[n + 1..], t);
    }
  }

  /** Counting the end cell completes the window's score. */
  lemma ScanLast(g: Grid, s: Cell, e: Cell, t: ChipType, dx: nat, dy: nat, sx: int, sy: int,
                 c: int, r: int, err: int, score: int, i: nat, j: nat, n: nat)
    requires Scanning(g, s, e, t, dx, dy, sx, sy, c, r, err, score, i, j, n)
    requires i == dx && j == dy && InGrid(Cell(c, r)) && !Blocks(g[c][r], t)
    ensures WindowScore(g, s, e, t) == Boost(score + (if g[c][r] == t then 3 else 1), g[c][r])
  {
    var chips := WindowChips(g, s, e);
    PathInGrid(s, e);
    PathAt(s, e, n);
    assert chips[n] == g[c][r];
    TallyNext(chips, n, t);
    assert chips[..n + 1] == chips;
  }

  /** Stepping on from any cell but the end, as lines 176-187 do, reaches
      the next cell of the walk, closer to the end. */
  lemma WalkOnNext(s: Cell, e: Cell, dx: nat, dy: nat, sx: int, sy: int,
                   c: int, r: int, err: int, i: nat, j: nat, n: nat, c': int, r': int, err': int)
    requires OnWalk(s, e, dx, dy, sx, sy, c, r, err, i, j, n) && !(i == dx && j == dy)
    requires c' == (if 2 * err > 0 - dy then c + sx else c)
    requires r' == (if 2 * err < dx then r + sy else r)
    requires err' == err - (if 2 * err > 0 - dy then dy else 0) + (if 2 * err < dx then dx else 0)
    ensures var seg := SegmentOf(s, e);
            NextColumn(seg, i, j) <= dx && NextRow(seg, i, j) <= dy &&
            (dx - NextColumn(seg, i, j)) + (dy - NextRow(seg, i, j)) < (dx - i) + (dy - j) &&
            OnWalk(s, e, dx, dy, sx, sy, c', r', err', NextColumn(seg, i, j), NextRow(seg, i, j), n + 1)
  {
    var seg := SegmentOf(s, e);
    PathAt(s, e, n);
    StepState(seg, i, j, c, r, err, dx, dy, sx, sy);
    assert Steps(seg, n + 1) == (NextColumn(seg, i, j), NextRow(seg, i, j));
  }

  /** Counting any other cell and stepping on gives the state before the
      next iteration, closer to the end. */
  lemma ScanNext(g: Grid, s: Cell, e: Cell, t: ChipType, dx: nat, dy: nat, sx: int, sy: int,
                 c: int, r: int, err: int, score: int, i: nat, j: nat, n: nat,
                 c': int, r': int, err': int, score': int)
    requires Scanning(g, s, e, t, dx, dy, sx, sy, c, r, err, score, i, j, n)
    requires !(i == dx && j == dy) && InGrid(Cell(c, r)) && !Blocks(g[c][r], t)
    requires score' == Boost(score + (if g[c][r] == t then 3 else 1), g[c][r])
    requires c' == (if 2 * err > 0 - dy then c + sx else c)
    requires r' == (if 2 * err < dx then r + sy else r)
    requires err' == err - (if 2 * err > 0 - dy then dy else 0) + (if 2 * err < dx then dx else 0)
    ensures var seg := SegmentOf(s, e);
            NextColumn(seg, i, j) <= dx && NextRow(seg, i, j) <= dy &&
            (dx - NextColumn(seg, i, j)) + (dy - NextRow(seg, i, j)) < (dx - i) + (dy - j) &&
            Scanning(g, s, e, t, dx, dy, sx, sy, c', r', err', score',
                     NextColumn(seg, i, j), NextRow(seg, i, j), n + 1)
  {
    var chips := WindowChips(g, s, e);
    WalkOnNext(s, e, dx, dy, sx, sy, c, r, err, i, j, n, c', r', err');
    PathInGrid(s, e);
    PathAt(s, e, n);
    assert chips[n] == g[c][r];
    TallyCell(chips, n, t, score);
  }

  /** Counting one more chip that does not block extends the running score
      by Count's points and multipliers. */
  lemma TallyCell(chips: seq<ChipType>, n: nat, t: ChipType, score: int)
    requires n < |chips| && Tally(chips[..n], t) == Some(score) && !Blocks(chips[n], t)
    ensures Tally(chips[..n + 1], t) == Some(Boost(score + (if chips[n] == t then 3 else 1), chips[n]))
  {
    TallyNext(chips, n, t);
  }

  /** Counting only Empty cells never reaches a multiplier: the score is
      the number of cells. */
  lemma {:induction false} TallyEmpty(chips: seq<ChipType>, forType: ChipType)
    requires forType != Empty
    requires forall k :: 0 <= k < |chips| ==> chips[k] == Empty
    ensures Tally(chips, forType) == Some(|chips|)
    decreases |chips|
  {
    if chips != [] {
      TallyEmpty(chips[..|chips| - 1], forType);
    }
  }

  // Golden values: the multipliers act on the running score after every
  // cell, so the same chips in a different order score differently.

  lemma AllEmptyWindow()
    ensures Tally([Empty, Empty, Empty, Empty], Player) == Some(4)
    ensures Tally([Empty, Empty, Empty, Empty], Computer) == Some(4)
  {
    TallyEmpty([Empty, Empty, Empty, Empty], Player);
    TallyEmpty([Empty, Empty, Empty, Empty], Computer);
  }

  lemma ThreePlayerChipsFirst(chips: seq<ChipType>)
    requires chips == [Player, Player, Player, Empty]
    ensures Tally(chips, Player) == Some(382501)
  {
    assert Tally(chips[..1], Player) == Some(3) by {
      assert chips[..1][..0] == [];
    }
    assert Tally(chips[..2], Player) == Some(150) by {
      assert chips[..2][..1] == chips[..1];
    }
    assert Tally(chips[..3], Player) == Some(382500) by {
      assert chips[..3][..2] == chips[..2];
    }
    assert chips[..3] == chips[..|chips| - 1];
  }

  lemma ThreePlayerChipsLast(chips: seq<ChipType>)
    requires chips == [Empty, Player, Player, Player]
    ensures Tally(chips, Player) == Some(445000)
  {
    assert Tally(chips[..1], Player) == Some(1) by {
      assert chips[..1][..0] == [];
    }
    assert Tally(chips[..2], Player) == Some(4) by {
      assert chips[..2][..1] == chips[..1];
    }
    assert Tally(chips[..3], Player) == Some(175) by {
      assert chips[..3][..2] == chips[..2];
    }
    assert chips[..3] == chips[..|chips| - 1];
  }

  lemma FourOfAKind()
    ensures Tally([Player, Player, Player, Player], Player) == Some(956257500)
    ensures Tally([Computer, Computer, Computer, Computer], Computer) == Some(15751500)
  {
    assert Tally([Player], Player) == Some(3);
    assert Tally([Player, Player], Player) == Some(150);
    assert Tally([Player, Player, Player], Player) == Some(382500);
    assert [Player, Player, Player, Player][..3] == [Player, Player, Player];
    assert Tally([Computer], Computer) == Some(3);
    assert Tally([Computer, Computer], Computer) == Some(60);
    assert Tally([Computer, Computer, Computer], Computer) == Some(31500);
    assert [Computer, Computer, Computer, Computer][..3] == [Computer, Computer, Computer];
  }

  /** The running score after n own chips in a row: the largest score n
      cells can reach. */
  function Peak(n: nat, forType: ChipType): int
  {
    if n == 0 then 0 else Boost(Peak(n - 1, forType) + 3, forType)
  }

  /** The multipliers never turn a larger score into a smaller one. */
  lemma BoostMonotone(a: int, b: int, chip: ChipType)
    requires 0 <= a <= b
    ensures Boost(a, chip) <= Boost(b, chip)
  {
  }

  /** No order of chips scores more than the same number of own chips. */
  lemma {:induction false} TallyPeak(chips: seq<ChipType>, forType: ChipType)
    requires Tally(chips, forType).Some?
    ensures Tally(chips, forType).value <= Peak(|chips|, forType)
    decreases |chips|
  {
    if chips != [] {
      var init := chips[..|chips| - 1];
      var chip := chips[|chips| - 1];
      TallyPeak(init, forType);
      var v, p := Tally(init, forType).value, Peak(|init|, forType);
      BoostMonotone(v + 3, p + 3, forType);
      assert Boost(p + 3, forType) >= p + 3;
    }
  }

  /** So a straight 4-cell window scores at most 956257500 for Player and
      15751500 for Computer, which fits a 32-bit int; four own chips reach
      it. */
  lemma WindowScoreBound(g: Grid, s: Cell, e: Cell, forType: ChipType)
    requires WellFormed(g) && Straight(s, e) && LineLength(s, e) == 3
    requires forType == Player || forType == Computer
    ensures WindowScore(g, s, e, forType) <= (if forType == Player then 956257500 else 15751500)
  {
    StraightPath(s, e);
    if InGrid(s) && InGrid(e) && Tally(WindowChips(g, s, e), forType).Some? {
      TallyPeak(WindowChips(g, s, e), forType);
      assert Peak(4, forType) == (if forType == Player then 956257500 else 15751500);
    }
  }

  /** Every window inside the grid scores one point per cell on an empty
      board; a straight 4-cell window scores 4. */
  lemma EmptyBoardWindow(s: Cell, e: Cell, forType: ChipType)
    requires InGrid(s) && InGrid(e) && forType != Empty
    ensures WindowScore(EmptyGrid(), s, e, forType) == |Path(s, e)|
    ensures Straight(s, e) && LineLength(s, e) == 3 ==> WindowScore(EmptyGrid(), s, e, forType) == 4
  {
    var chips := WindowChips(EmptyGrid(), s, e);
    TallyEmpty(chips, forType);
    if Straight(s, e) {
      StraightPath(s, e);
    }
  }

  /** The chips read along a window of row 0 from s to e. */
  lemma BottomRowChips(g: Grid, s: Cell, e: Cell)
    requires WellFormed(g) && s.row == 0 && e.row == 0 && Abs(e.col - s.col) == 3
    requires InGrid(s) && InGrid(e)
    ensures WindowChips(g, s, e) ==
            [g[s.col][0], g[Toward(s.col, e.col, 1)][0], g[Toward(s.col, e.col, 2)][0], g[e.col][0]]
  {
    StraightPath(s, e);
  }

  /** On any board with Player chips in the three leftmost cells of row 0
      and the fourth cell empty, the window s..e scores 382501 for Player
      when walked left to right ... */
  lemma ScoreLeftToRight(g: Grid, s: Cell, e: Cell)
    requires WellFormed(g) && s == Cell(0, 0) && e == Cell(3, 0)
    requires g[0][0] == Player && g[1][0] == Player && g[2][0] == Player && g[3][0] == Empty
    ensures WindowScore(g, s, e, Player) == 382501
  {
    BottomRowChips(g, s, e);
    ThreePlayerChipsFirst(WindowChips(g, s, e));
  }

  /** ... and 445000 when walked right to left. */
  lemma ScoreRightToLeft(g: Grid, s: Cell, e: Cell)
    requires WellFormed(g) && s == Cell(3, 0) && e == Cell(0, 0)
    requires g[0][0] == Player && g[1][0] == Player && g[2][0] == Player && g[3][0] == Empty
    ensures WindowScore(g, s, e, Player) == 445000
  {
    BottomRowChips(g, s, e);
    ThreePlayerChipsLast(WindowChips(g, s, e));
  }

  /** A window whose first cell holds an opposing chip scores 0: the scan
      stops at its first cell. */
  lemma FirstCellBlocks(g: Grid, s: Cell, e: Cell, forType: ChipType)
    requires WellFormed(g) && InGrid(s) && InGrid(e) && Blocks(g[s.col][s.row], forType)
    ensures WindowScore(g, s, e, forType) == 0
  {
    WindowScoreZero(g, s, e, forType);
    assert WindowChips(g, s, e)[0] == g[s.col][s.row];
  }

  // The cell evaluator.

  /** The four direction families GetCellScore scans. */
  datatype Direction = Horizontal | Ascending | Descending | Down

  /** The index-th window of a direction family for the cell (col, row):
      its start and end cell (lines 69-79). */
  function WindowStart(col: int, row: int, index: int, d: Direction): Cell
  {
    match d
    case Horizontal => Cell(col - index, row)
    case Ascending => Cell(col - index, row - index)
    case Descending => Cell(col - index, row + index)
    case Down => Cell(col, row + index)
  }

  function WindowEnd(col: int, row: int, index: int, d: Direction): Cell
  {
    match d
    case Horizontal => Cell(col - index + 3, row)
    case Ascending => Cell(col - index + 3, row - index + 3)
    case Descending => Cell(col - index + 3, row + index - 3)
    case Down => Cell(col, row + index - 3)
  }

  /** The index-th window of every family through (col, row) is a straight
      4-cell line whose index-th cell is (col, row) itself. */
  lemma WindowThroughCell(col: int, row: int, index: int, d: Direction)
    requires 0 <= index <= 3
    ensures var w := Path(WindowStart(col, row, index, d), WindowEnd(col, row, index, d));
            |w| == 4 && w[index] == Cell(col, row)
  {
    var s, e := WindowStart(col, row, index, d), WindowEnd(col, row, index, d);
    StraightPath(s, e);
  }

  function DirectionScore(g: Grid, col: int, row: int, index: int, d: Direction, forType: ChipType): int
    requires WellFormed(g)
  {
    WindowScore(g, WindowStart(col, row, index, d), WindowEnd(col, row, index, d), forType)
  }

  /** The four windows of one index, in the source's order. */
  function IndexScore(g: Grid, col: int, row: int, index: int, forType: ChipType): (score: int)
    requires WellFormed(g)
    ensures score >= 0
  {
    DirectionScore(g, col, row, index, Horizontal, forType)
    + DirectionScore(g, col, row, index, Ascending, forType)
    + DirectionScore(g, col, row, index, Descending, forType)
    + DirectionScore(g, col, row, index, Down, forType)
  }

  /** The four windows of one index, written with their cells. */
  lemma IndexWindows(g: Grid, col: int, row: int, index: int, forType: ChipType)
    requires WellFormed(g)
    ensures IndexScore(g, col, row, index, forType) ==
            WindowScore(g, Cell(col - index, row), Cell(col - index + 3, row), forType)
            + WindowScore(g, Cell(col - index, row - index), Cell(col - index + 3, row - index + 3), forType)
            + WindowScore(g, Cell(col - index, row + index), Cell(col - index + 3, row + index - 3), forType)
            + WindowScore(g, Cell(col, row + index), Cell(col, row + index - 3), forType)
  {
  }

  /** The windows of the indices 0 .. n-1 for one chip type. */
  function ScoreUpTo(g: Grid, col: int, row: int, n: nat, forType: ChipType): (score: int)
    requires WellFormed(g)
    ensures score >= 0
  {
    if n == 0 then 0
    else ScoreUpTo(g, col, row, n - 1, forType) + IndexScore(g, col, row, n - 1, forType)
  }

  /** The cell score: Player's and Computer's window scores added up. */
  function CellScore(g: Grid, col: int, row: int): (score: int)
    requires WellFormed(g)
    ensures score >= 0
  {
    ScoreUpTo(g, col, row, 4, Player) + ScoreUpTo(g, col, row, 4, Computer)
  }
}
