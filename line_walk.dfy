// The integer line-stepping (Bresenham) walk that GetScore uses to visit the
// cells between a window's start and end cell.
//
// The walk is described by the number of steps already taken along each
// axis, i (columns) and j (rows). The source's error term is then
// err == (j + 1) * dx - (i + 1) * dy, and a position is determined by
// (i, j); this lets the path be a terminating function for every pair of
// endpoints, not only for the straight windows of the cell evaluator.
module LineWalk {
  import opened Board

  function Abs(x: int): (a: nat)
    ensures a == x || a == -x
  {
    if x < 0 then -x else x
  }

  /** The fixed data of one walk: start cell, axis distances and signs. */
  datatype Segment = Segment(start: Cell, dx: nat, dy: nat, sx: int, sy: int)

  /** The segment GetScore sets up for a start and an end cell (lines 121-124). */
  function SegmentOf(s: Cell, e: Cell): (seg: Segment)
    ensures seg.sx == 1 || seg.sx == -1
    ensures seg.sy == 1 || seg.sy == -1
    ensures StepsTo(seg.start.col, seg.sx, seg.dx) == e.col
    ensures StepsTo(seg.start.row, seg.sy, seg.dy) == e.row
  {
    Segment(s, Abs(e.col - s.col), Abs(e.row - s.row),
            if s.col < e.col then 1 else -1,
            if s.row < e.row then 1 else -1)
  }

  /** The coordinate reached after n steps of sign s from a. */
  function StepsTo(a: int, s: int, n: nat): int
  {
    if s == 1 then a + n else a - n
  }

  /** The cell reached after i column steps and j row steps. */
  function Position(seg: Segment, i: nat, j: nat): Cell
  {
    Cell(StepsTo(seg.start.col, seg.sx, i), StepsTo(seg.start.row, seg.sy, j))
  }

  function EndOf(seg: Segment): Cell
  {
    Position(seg, seg.dx, seg.dy)
  }

  /** The source's err after i column steps and j row steps. */
  function Err(seg: Segment, i: nat, j: nat): int
  {
    (j + 1) * seg.dx - (i + 1) * seg.dy
  }

  /** Whether the next iteration steps along the columns (line 177) ... */
  predicate StepsColumn(seg: Segment, i: nat, j: nat)
  {
    2 * Err(seg, i, j) > 0 - seg.dy
  }

  /** ... and whether it steps along the rows (line 183). */
  predicate StepsRow(seg: Segment, i: nat, j: nat)
  {
    2 * Err(seg, i, j) < seg.dx
  }

  predicate Between(a: int, x: int, b: int)
  {
    (a <= x <= b) || (b <= x <= a)
  }

  /** x lies on the axis-aligned box spanned by the two cells. */
  predicate InBox(a: Cell, x: Cell, b: Cell)
  {
    Between(a.col, x.col, b.col) && Between(a.row, x.row, b.row)
  }

  lemma MulMonotone(a: int, b: int, k: nat)
    requires a <= b
    ensures a * k <= b * k
  {
  }

  /** On the last column (i == dx) with rows still to go, the walk takes no
      column step. */
  lemma NoColumnStep(seg: Segment, j: nat)
    requires j < seg.dy
    ensures !StepsColumn(seg, seg.dx, j)
  {
    MulMonotone(j + 1, seg.dy, seg.dx);
    assert (seg.dx + 1) * seg.dy == seg.dx * seg.dy + seg.dy;
  }

  /** On the last row (j == dy) with columns still to go, the walk takes no
      row step. */
  lemma NoRowStep(seg: Segment, i: nat)
    requires i < seg.dx
    ensures !StepsRow(seg, i, seg.dy)
  {
    MulMonotone(i + 1, seg.dx, seg.dy);
    assert (seg.dy + 1) * seg.dx == seg.dy * seg.dx + seg.dx;
  }

  /** The heart of the termination argument: before the end is reached, an
      iteration never steps past the end along either axis and always
      steps along at least one. */
  lemma StepBounds(seg: Segment, i: nat, j: nat)
    requires i <= seg.dx && j <= seg.dy && !(i == seg.dx && j == seg.dy)
    ensures StepsColumn(seg, i, j) ==> i < seg.dx
    ensures StepsRow(seg, i, j) ==> j < seg.dy
    ensures StepsColumn(seg, i, j) || StepsRow(seg, i, j)
  {
    if i == seg.dx {
      NoColumnStep(seg, j);
    }
    if j == seg.dy {
      NoRowStep(seg, i);
    }
  }

  /** How the source's updates of err (lines 179 and 185) track the step
      counts. */
  lemma ErrStep(seg: Segment, i: nat, j: nat)
    ensures Err(seg, i + 1, j) == Err(seg, i, j) - seg.dy
    ensures Err(seg, i, j + 1) == Err(seg, i, j) + seg.dx
    ensures Err(seg, i + 1, j + 1) == Err(seg, i, j) - seg.dy + seg.dx
  {
  }

  /** The cells visited from the position (i, j) on, inclusive of both the
      current cell and the end cell (the loop of lines 127-188). */
  function Walk(seg: Segment, i: nat, j: nat): (w: seq<Cell>)
    requires i <= seg.dx && j <= seg.dy
    ensures 1 <= |w| <= (seg.dx - i) + (seg.dy - j) + 1
    ensures w[0] == Position(seg, i, j)
    ensures w[|w| - 1] == EndOf(seg)
    ensures forall k :: 0 <= k < |w| ==> InBox(Position(seg, i, j), w[k], EndOf(seg))
    decreases (seg.dx - i) + (seg.dy - j)
  {
    if i == seg.dx && j == seg.dy then
      [Position(seg, i, j)]
    else
      StepBounds(seg, i, j);
      [Position(seg, i, j)] + Walk(seg, NextColumn(seg, i, j), NextRow(seg, i, j))
  }

  /** The step counts after one more iteration. */
  function NextColumn(seg: Segment, i: nat, j: nat): nat
  {
    if StepsColumn(seg, i, j) then i + 1 else i
  }

  function NextRow(seg: Segment, i: nat, j: nat): nat
  {
    if StepsRow(seg, i, j) then j + 1 else j
  }

  /** One iteration of the walk: unless the end is reached, the remaining
      cells after the current one are those of the next position. */
  lemma WalkNext(seg: Segment, i: nat, j: nat)
    requires i <= seg.dx && j <= seg.dy && !(i == seg.dx && j == seg.dy)
    ensures NextColumn(seg, i, j) <= seg.dx && NextRow(seg, i, j) <= seg.dy
    ensures Walk(seg, i, j)[1..] == Walk(seg, NextColumn(seg, i, j), NextRow(seg, i, j))
    ensures Err(seg, NextColumn(seg, i, j), NextRow(seg, i, j)) ==
            Err(seg, i, j) - (if StepsColumn(seg, i, j) then seg.dy else 0)
                           + (if StepsRow(seg, i, j) then seg.dx else 0)
  {
    StepBounds(seg, i, j);
    ErrStep(seg, i, j);
  }

  /** The walk stops exactly at the end cell. */
  lemma WalkLast(seg: Segment, i: nat, j: nat)
    requires i <= seg.dx && j <= seg.dy
    requires seg.sx == 1 || seg.sx == -1
    requires seg.sy == 1 || seg.sy == -1
    ensures Position(seg, i, j) == EndOf(seg) <==> i == seg.dx && j == seg.dy
    ensures i == seg.dx && j == seg.dy ==> |Walk(seg, i, j)| == 1
  {
  }

  /** The step counts after k iterations from the start cell; once the
      end is reached the walk stays there. */
  function Steps(seg: Segment, k: nat): (p: (nat, nat))
    ensures p.0 <= seg.dx && p.1 <= seg.dy
  {
    if k == 0 then (0, 0)
    else
      var p := Steps(seg, k - 1);
      if p.0 == seg.dx && p.1 == seg.dy then p
      else
        StepBounds(seg, p.0, p.1);
        (NextColumn(seg, p.0, p.1), NextRow(seg, p.0, p.1))
  }

  /** After k iterations the cells still to visit are the walk from the
      step counts reached. */
  lemma {:induction false} WalkSuffix(seg: Segment, k: nat)
    requires seg.sx == 1 || seg.sx == -1
    requires seg.sy == 1 || seg.sy == -1
    requires k < |Walk(seg, 0, 0)|
    ensures Walk(seg, 0, 0)[k..] == Walk(seg, Steps(seg, k).0, Steps(seg, k).1)
  {
    if k > 0 {
      var w := Walk(seg, 0, 0);
      WalkSuffix(seg, k - 1);
      var p := Steps(seg, k - 1);
      var rest := Walk(seg, p.0, p.1);
      assert |rest| >= 2;
      WalkLast(seg, p.0, p.1);
      WalkNext(seg, p.0, p.1);
      assert Steps(seg, k) == (NextColumn(seg, p.0, p.1), NextRow(seg, p.0, p.1));
      assert w[k..] == rest[1..];
    }
  }

  /** One iteration of GetScore's loop on its own variables: from the
      position and error term of (i, j), the source's updates reach those
      of the next step counts, which are still within the segment and
      closer to its end. */
  lemma StepState(seg: Segment, i: nat, j: nat, c: int, r: int, err: int,
                  dx: nat, dy: nat, sx: int, sy: int)
    requires seg == Segment(seg.start, dx, dy, sx, sy)
    requires (sx == 1 || sx == -1) && (sy == 1 || sy == -1)
    requires i <= dx && j <= dy && !(i == dx && j == dy)
    requires Cell(c, r) == Position(seg, i, j) && err == Err(seg, i, j)
    ensures NextColumn(seg, i, j) <= dx && NextRow(seg, i, j) <= dy
    ensures (dx - NextColumn(seg, i, j)) + (dy - NextRow(seg, i, j)) < (dx - i) + (dy - j)
    ensures Cell(if 2 * err > 0 - dy then c + sx else c, if 2 * err < dx then r + sy else r) ==
            Position(seg, NextColumn(seg, i, j), NextRow(seg, i, j))
    ensures err - (if 2 * err > 0 - dy then dy else 0) + (if 2 * err < dx then dx else 0) ==
            Err(seg, NextColumn(seg, i, j), NextRow(seg, i, j))
  {
    StepBounds(seg, i, j);
    ErrStep(seg, i, j);
  }

  /** The whole path from start to end cell, as GetScore walks it. */
  function Path(s: Cell, e: Cell): (w: seq<Cell>)
    ensures |w| >= 1 && w[0] == s && w[|w| - 1] == e
    ensures forall k :: 0 <= k < |w| ==> InBox(s, w[k], e)
  {
    Walk(SegmentOf(s, e), 0, 0)
  }

  /** Every cell of a path between two cells of the grid is in the grid. */
  lemma PathInGrid(s: Cell, e: Cell)
    requires InGrid(s) && InGrid(e)
    ensures forall k :: 0 <= k < |Path(s, e)| ==> InGrid(Path(s, e)[k])
  {
  }

  /** The k-th cell of a path is the position after k iterations, and the
      path goes on after it exactly when that position is not the end. */
  lemma PathAt(s: Cell, e: Cell, k: nat)
    requires k < |Path(s, e)|
    ensures var seg := SegmentOf(s, e);
            var p := Steps(seg, k);
            Path(s, e)[k] == Position(seg, p.0, p.1) &&
            (k + 1 < |Path(s, e)| <==> !(p.0 == seg.dx && p.1 == seg.dy))
  {
    var seg := SegmentOf(s, e);
    WalkSuffix(seg, k);
    var p := Steps(seg, k);
    WalkLast(seg, p.0, p.1);
    if !(p.0 == seg.dx && p.1 == seg.dy) {
      StepBounds(seg, p.0, p.1);
      assert |Walk(seg, p.0, p.1)| >= 2;
    }
  }

  /** b is one of the eight cells around a. */
  predicate Adjacent(a: Cell, b: Cell)
  {
    Abs(b.col - a.col) <= 1 && Abs(b.row - a.row) <= 1 && a != b
  }

  /** Consecutive cells of a path touch: every iteration moves one unit
      along the columns, the rows or both, and never away from the end. */
  lemma PathAdjacent(s: Cell, e: Cell, k: nat)
    requires k + 1 < |Path(s, e)|
    ensures Adjacent(Path(s, e)[k], Path(s, e)[k + 1])
    ensures Between(Path(s, e)[k].col, Path(s, e)[k + 1].col, e.col)
    ensures Between(Path(s, e)[k].row, Path(s, e)[k + 1].row, e.row)
  {
    var seg := SegmentOf(s, e);
    PathAt(s, e, k);
    PathAt(s, e, k + 1);
    var p := Steps(seg, k);
    StepBounds(seg, p.0, p.1);
    assert Steps(seg, k + 1) == (NextColumn(seg, p.0, p.1), NextRow(seg, p.0, p.1));
  }

  /** A straight line: vertical, horizontal or at 45 degrees. */
  predicate Straight(s: Cell, e: Cell)
  {
    var dx, dy := Abs(e.col - s.col), Abs(e.row - s.row);
    dx == 0 || dy == 0 || dx == dy
  }

  /** The coordinate k unit steps from a towards b (a itself when a == b). */
  function Toward(a: int, b: int, k: int): int
  {
    if a < b then a + k else if a > b then a - k else a
  }

  /** The k-th cell of a straight line from s towards e. */
  function LinePoint(s: Cell, e: Cell, k: int): Cell
  {
    Cell(Toward(s.col, e.col, k), Toward(s.row, e.row, k))
  }

  /** The length, in steps, of a straight segment. */
  function Length(seg: Segment): nat
  {
    if seg.dx == 0 then seg.dy else seg.dx
  }

  /** Step counts after k unit steps of a straight segment. */
  function ColumnSteps(seg: Segment, k: nat): nat
  {
    if seg.dx == 0 then 0 else k
  }

  function RowSteps(seg: Segment, k: nat): nat
  {
    if seg.dy == 0 then 0 else k
  }

  /** A segment along a row, a column or a 45-degree diagonal. */
  predicate StraightSegment(seg: Segment)
  {
    seg.dx == 0 || seg.dy == 0 || seg.dx == seg.dy
  }

  /** The cell after k unit steps of a straight segment. */
  function UnitPosition(seg: Segment, k: nat): Cell
  {
    Position(seg, ColumnSteps(seg, k), RowSteps(seg, k))
  }

  /** On a straight segment every iteration moves along exactly the axes
      that change. */
  lemma StraightStep(seg: Segment, k: nat)
    requires StraightSegment(seg) && k < Length(seg)
    ensures NextColumn(seg, ColumnSteps(seg, k), RowSteps(seg, k)) == ColumnSteps(seg, k + 1)
    ensures NextRow(seg, ColumnSteps(seg, k), RowSteps(seg, k)) == RowSteps(seg, k + 1)
  {
    var i, j := ColumnSteps(seg, k), RowSteps(seg, k);
    if seg.dx == 0 {
      assert Err(seg, i, j) == 0 - seg.dy;
    } else if seg.dy == 0 {
      assert Err(seg, i, j) == seg.dx;
    } else {
      assert Err(seg, i, j) == (k + 1) * seg.dx - (k + 1) * seg.dx == 0;
    }
  }

  /** On a straight segment each of the first Length(seg) iterations moves
      one unit along the axes that change. */
  lemma {:induction false} StraightSteps(seg: Segment, k: nat)
    requires StraightSegment(seg) && k <= Length(seg)
    ensures Steps(seg, k) == (ColumnSteps(seg, k), RowSteps(seg, k))
  {
    if k > 0 {
      StraightSteps(seg, k - 1);
      StraightStep(seg, k - 1);
    }
  }

  /** For the segment of a straight line, the k-th unit position is the
      line's k-th cell. */
  lemma StraightPosition(s: Cell, e: Cell, k: nat)
    requires Straight(s, e)
    ensures StraightSegment(SegmentOf(s, e))
    ensures Length(SegmentOf(s, e)) == LineLength(s, e)
    ensures UnitPosition(SegmentOf(s, e), k) == LinePoint(s, e, k)
  {
  }

  /** The number of steps of a straight line: max(dx, dy). */
  function LineLength(s: Cell, e: Cell): nat
  {
    if s.col == e.col then Abs(e.row - s.row) else Abs(e.col - s.col)
  }

  /** A straight path from s to e has exactly max(dx, dy) + 1 cells, the
      k-th being s moved k unit steps towards e. */
  lemma StraightPath(s: Cell, e: Cell)
    requires Straight(s, e)
    ensures |Path(s, e)| == LineLength(s, e) + 1
    ensures forall k :: 0 <= k <= LineLength(s, e) ==> Path(s, e)[k] == LinePoint(s, e, k)
  {
    var seg := SegmentOf(s, e);
    StraightPosition(s, e, 0);
    // the last cell is reached after exactly Length(seg) iterations
    var last := if |Path(s, e)| <= Length(seg) then |Path(s, e)| - 1 else Length(seg);
    PathAt(s, e, last);
    StraightSteps(seg, last);
    forall k | 0 <= k <= Length(seg)
      ensures Path(s, e)[k] == LinePoint(s, e, k)
    {
      PathAt(s, e, k);
      StraightSteps(seg, k);
      StraightPosition(s, e, k);
    }
  }
}
