// The Connect Four board as a value: chip states, grid dimensions, cells,
// and the fullness predicates that the engine's queries are specified by.
module Board {

  /** The state of one cell (ChipType in the source). */
  datatype ChipType = Empty | Player | Computer

  const ColumnCount: int := 7
  const RowCount: int := 6

  /** A cell coordinate, the source's two-element int array {col, row}. */
  datatype Cell = Cell(col: int, row: int)

  /** The board, column-major: g[c][r] is column c, row r (row 0 at the bottom). */
  type Grid = seq<seq<ChipType>>

  predicate WellFormed(g: Grid)
  {
    |g| == ColumnCount && forall c :: 0 <= c < |g| ==> |g[c]| == RowCount
  }

  predicate InGrid(p: Cell)
  {
    0 <= p.col < ColumnCount && 0 <= p.row < RowCount
  }

  function At(g: Grid, p: Cell): ChipType
    requires WellFormed(g) && InGrid(p)
  {
    g[p.col][p.row]
  }

  /** The board every game starts from, and the one a reset restores. */
  function EmptyGrid(): (g: Grid)
    ensures WellFormed(g)
    ensures forall c, r :: 0 <= c < ColumnCount && 0 <= r < RowCount ==> g[c][r] == Empty
  {
    seq(ColumnCount, _ => seq(RowCount, _ => Empty))
  }

  /** Column c holds no Empty cell. */
  predicate ColumnFull(g: Grid, c: int)
    requires WellFormed(g) && 0 <= c < ColumnCount
  {
    forall r :: 0 <= r < RowCount ==> g[c][r] != Empty
  }

  /** Every column is full: the draw condition. */
  predicate BoardFull(g: Grid)
    requires WellFormed(g)
  {
    forall c :: 0 <= c < ColumnCount ==> ColumnFull(g, c)
  }

  /** The grid after writing t into cell (c, r). */
  function Place(g: Grid, c: int, r: int, t: ChipType): (h: Grid)
    requires WellFormed(g) && 0 <= c < ColumnCount && 0 <= r < RowCount
    ensures WellFormed(h)
    ensures h[c][r] == t
    ensures forall c', r' :: 0 <= c' < ColumnCount && 0 <= r' < RowCount && (c', r') != (c, r) ==>
              h[c'][r'] == g[c'][r']
  {
    g[c := g[c][r := t]]
  }
}
