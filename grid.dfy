/** The occupancy grid of one canvas (combine.py:32-57): a `rows x cols` array of
    booleans, one per `gridSize x gridSize` pixel cell, `true` once a sprite covers it. */
module Grid {
  import opened Wrappers

  /** A grid cell: column `col` (the x of the source) and row `row` (its y). */
  datatype Cell = Cell(col: nat, row: nat)

  /** Python's `-(-pixels // gridSize)`: `//` floors, so this is the number of
      cells needed to cover `pixels` pixels, i.e. the ceiling of `pixels / gridSize`.
      Dafny's `/` is Euclidean, which for a positive divisor is the same floor. */
  function CellSpan(pixels: nat, gridSize: int): (cells: nat)
    requires gridSize > 0
    ensures (cells - 1) * gridSize < pixels <= cells * gridSize
  {
    var q := -(pixels as int) / gridSize;
    assert q * gridSize <= -(pixels as int) < q * gridSize + gridSize;
    -q
  }

  /** A larger sprite never needs fewer cells. */
  lemma CellSpanMonotonic(a: nat, b: nat, gridSize: int)
    requires gridSize > 0 && a <= b
    ensures CellSpan(a, gridSize) <= CellSpan(b, gridSize)
  {
  }

  /** Cell `c` lies in the rectangle of `wc x hc` cells whose top-left cell is `(x, y)`. */
  predicate InRect(c: Cell, x: nat, y: nat, wc: nat, hc: nat) {
    x <= c.col < x + wc && y <= c.row < y + hc
  }

  lemma MulSucc(a: nat, c: nat)
    ensures (a + 1) * c == a * c + c
  {
  }

  lemma {:induction false} MulMonotonic(a: nat, b: nat, c: nat)
    requires a <= b
    ensures a * c <= b * c
    decreases b - a
  {
    if a < b {
      MulMonotonic(a + 1, b, c);
      MulSucc(a, c);
    }
  }

  /** The cells `[x, x+wc) x [y, y+hc)`. */
  function RectCells(x: nat, y: nat, wc: nat, hc: nat): (cells: set<Cell>)
    ensures forall c :: c in cells <==> InRect(c, x, y, wc, hc)
  {
    set i: nat, j: nat | x <= i < x + wc && y <= j < y + hc :: Cell(i, j)
  }

  /** `check_fit` on an abstract grid whose occupied cells are `occ`: the rectangle
      must lie inside the grid, and none of its cells may be occupied. */
  predicate FitsAt(occ: set<Cell>, rows: nat, cols: nat, x: nat, y: nat, wc: nat, hc: nat) {
    x + wc <= cols && y + hc <= rows && RectCells(x, y, wc, hc) !! occ
  }

  /** Row-major order of the scan: `a` is visited before `b`. */
  predicate Before(a: Cell, b: Cell) {
    a.row < b.row || (a.row == b.row && a.col < b.col)
  }

  /** The row-major scan of combine.py:82-95 from cell `(x, y)` on: the first
      cell of the grid where a `wc x hc` footprint fits, or `None`. */
  function FirstFitFrom(occ: set<Cell>, rows: nat, cols: nat, wc: nat, hc: nat, x: nat, y: nat): (r: Option<Cell>)
    ensures r.Some? ==> r.value.col < cols && r.value.row < rows
    ensures r.Some? ==> FitsAt(occ, rows, cols, r.value.col, r.value.row, wc, hc)
    ensures r.Some? ==> !Before(r.value, Cell(x, y))
    ensures forall c: Cell ::
      (c.col < cols && c.row < rows && !Before(c, Cell(x, y)) && (r.None? || Before(c, r.value))) ==>
      !FitsAt(occ, rows, cols, c.col, c.row, wc, hc)
    decreases rows - y, cols - x
  {
    if y >= rows then None
    else if x >= cols then FirstFitFrom(occ, rows, cols, wc, hc, 0, y + 1)
    else if FitsAt(occ, rows, cols, x, y, wc, hc) then Some(Cell(x, y))
    else FirstFitFrom(occ, rows, cols, wc, hc, x + 1, y)
  }

  /** The scan every sprite starts afresh from `(0, 0)`. */
  function FirstFit(occ: set<Cell>, rows: nat, cols: nat, wc: nat, hc: nat): Option<Cell> {
    FirstFitFrom(occ, rows, cols, wc, hc, 0, 0)
  }

  /** The first-fit cell is characterised by the source's promise alone: it fits,
      and no cell before it in row-major order does; and `None` means no cell fits. */
  lemma FirstFitCharacterised(occ: set<Cell>, rows: nat, cols: nat, wc: nat, hc: nat, r: Option<Cell>)
    requires r.Some? ==> r.value.col < cols && r.value.row < rows
    requires r.Some? ==> FitsAt(occ, rows, cols, r.value.col, r.value.row, wc, hc)
    requires forall c: Cell ::
      (c.col < cols && c.row < rows && (r.None? || Before(c, r.value))) ==>
      !FitsAt(occ, rows, cols, c.col, c.row, wc, hc)
    ensures FirstFit(occ, rows, cols, wc, hc) == r
  {
  }

  /** On an empty grid, a footprint fits somewhere exactly when the grid has a cell
      and the footprint is no larger than the grid; it then goes to `(0, 0)`. */
  lemma EmptyGridFit(rows: nat, cols: nat, wc: nat, hc: nat)
    ensures FirstFit({}, rows, cols, wc, hc).Some? <==> 0 < rows && 0 < cols && wc <= cols && hc <= rows
    ensures FirstFit({}, rows, cols, wc, hc).Some? ==> FirstFit({}, rows, cols, wc, hc).value == Cell(0, 0)
  {
    if 0 < rows && 0 < cols && wc <= cols && hc <= rows {
      assert FitsAt({}, rows, cols, 0, 0, wc, hc);
      FirstFitCharacterised({}, rows, cols, wc, hc, Some(Cell(0, 0)));
    }
  }

  /** The occupied cells of a concrete grid, `grid[row, col]` as in the source's `grid[y][x]`. */
  ghost function Occupied(grid: array2<bool>): (occ: set<Cell>)
    reads grid
    ensures forall c :: c in occ <==> c.row < grid.Length0 && c.col < grid.Length1 && grid[c.row, c.col]
  {
    set j: nat, i: nat | j < grid.Length0 && i < grid.Length1 && grid[j, i] :: Cell(i, j)
  }

  /** `create_grid(w, h)` (combine.py:32-35): `h // gridSize` rows of `w // gridSize` free cells. */
  method CreateGrid(w: nat, h: nat, gridSize: int) returns (grid: array2<bool>)
    requires gridSize > 0
    ensures fresh(grid)
    ensures grid.Length0 == h / gridSize && grid.Length1 == w / gridSize
    ensures forall j, i :: 0 <= j < grid.Length0 && 0 <= i < grid.Length1 ==> !grid[j, i]
    ensures Occupied(grid) == {}
  {
    var cols := w / gridSize;
    var rows := h / gridSize;
    grid := new bool[rows, cols]((j, i) => false);
  }

  /** `check_fit` (combine.py:37-50): the bounds test first, then a scan of the
      footprint's cells with an early `False` on the first occupied one. */
  method CheckFit(grid: array2<bool>, x: nat, y: nat, imgW: nat, imgH: nat, gridSize: int) returns (fits: bool)
    requires gridSize > 0
    requires grid.Length0 > 0
    ensures fits == FitsAt(Occupied(grid), grid.Length0, grid.Length1, x, y,
                           CellSpan(imgW, gridSize), CellSpan(imgH, gridSize))
  {
    var cols := grid.Length1;
    var rows := grid.Length0;
    var wCells := CellSpan(imgW, gridSize);
    var hCells := CellSpan(imgH, gridSize);
    if x + wCells > cols || y + hCells > rows {
      return false;
    }
    var j := 0;
    while j < hCells
      invariant 0 <= j <= hCells
      invariant forall c :: InRect(c, x, y, wCells, j) ==> !grid[c.row, c.col]
    {
      var i := 0;
      while i < wCells
        invariant 0 <= i <= wCells
        invariant forall c :: InRect(c, x, y, wCells, j) ==> !grid[c.row, c.col]
        invariant forall c :: InRect(c, x, y + j, i, 1) ==> !grid[c.row, c.col]
      {
        if grid[y + j, x + i] {
          assert Cell(x + i, y + j) in RectCells(x, y, wCells, hCells) * Occupied(grid);
          return false;
        }
        i := i + 1;
      }
      j := j + 1;
    }
    return true;
  }

  /** `mark_grid` (combine.py:52-57): sets exactly the footprint's cells and leaves
      every other cell as it was. Like the source it does not re-check occupancy;
      the footprint must lie inside the grid, or the source's indexing would fail. */
  method MarkGrid(grid: array2<bool>, x: nat, y: nat, imgW: nat, imgH: nat, gridSize: int)
    requires gridSize > 0
    requires x + CellSpan(imgW, gridSize) <= grid.Length1 && y + CellSpan(imgH, gridSize) <= grid.Length0
    modifies grid
    ensures forall j, i :: 0 <= j < grid.Length0 && 0 <= i < grid.Length1 ==>
      grid[j, i] == (old(grid[j, i]) || InRect(Cell(i, j), x, y, CellSpan(imgW, gridSize), CellSpan(imgH, gridSize)))
    ensures Occupied(grid) == old(Occupied(grid)) + RectCells(x, y, CellSpan(imgW, gridSize), CellSpan(imgH, gridSize))
  {
    var wCells := CellSpan(imgW, gridSize);
    var hCells := CellSpan(imgH, gridSize);
    var j := 0;
    while j < hCells
      invariant 0 <= j <= hCells
      invariant forall r, k :: 0 <= r < grid.Length0 && 0 <= k < grid.Length1 ==>
        grid[r, k] == (old(grid[r, k]) || InRect(Cell(k, r), x, y, wCells, j))
    {
      var i := 0;
      while i < wCells
        invariant 0 <= i <= wCells
        invariant forall r, k :: 0 <= r < grid.Length0 && 0 <= k < grid.Length1 ==>
          grid[r, k] == (old(grid[r, k]) || InRect(Cell(k, r), x, y, wCells, j) || InRect(Cell(k, r), x, y + j, i, 1))
      {
        grid[y + j, x + i] := true;
        i := i + 1;
      }
      j := j + 1;
    }
    ghost var before := old(Occupied(grid));
    assert forall c :: c in before <==> c.row < grid.Length0 && c.col < grid.Length1 && old(grid[c.row, c.col]);
    assert Occupied(grid) == before + RectCells(x, y, wCells, hCells);
  }

  /** After a footprint is marked, no footprint sharing a cell with it fits. */
  lemma MarkedCellsBlockFit(occ: set<Cell>, rows: nat, cols: nat, x: nat, y: nat, wc: nat, hc: nat,
                            c: Cell, x': nat, y': nat, wc': nat, hc': nat)
    requires InRect(c, x, y, wc, hc) && InRect(c, x', y', wc', hc')
    ensures !FitsAt(occ + RectCells(x, y, wc, hc), rows, cols, x', y', wc', hc')
  {
    assert c in RectCells(x', y', wc', hc') * (occ + RectCells(x, y, wc, hc));
  }

  /** The row-major scan of combine.py:81-95 for one sprite, with the source's
      `placed` flag and `break`s as an early return: the first cell, scanning
      rows top to bottom and each row left to right from `(0, 0)`, where
      `check_fit` holds. */
  method FindFirstFit(grid: array2<bool>, imgW: nat, imgH: nat, gridSize: int) returns (found: Option<Cell>)
    requires gridSize > 0
    ensures found == FirstFit(Occupied(grid), grid.Length0, grid.Length1,
                              CellSpan(imgW, gridSize), CellSpan(imgH, gridSize))
  {
    ghost var occ := Occupied(grid);
    var rows := grid.Length0;
    var cols := grid.Length1;
    ghost var wc, hc := CellSpan(imgW, gridSize), CellSpan(imgH, gridSize);
    var y := 0;
    while y < rows
      invariant 0 <= y <= rows
      invariant FirstFitFrom(occ, rows, cols, wc, hc, 0, y) == FirstFit(occ, rows, cols, wc, hc)
    {
      var x := 0;
      while x < cols
        invariant 0 <= x <= cols
        invariant FirstFitFrom(occ, rows, cols, wc, hc, x, y) == FirstFit(occ, rows, cols, wc, hc)
      {
        var fits := CheckFit(grid, x, y, imgW, imgH, gridSize);
        if fits {
          return Some(Cell(x, y));
        }
        x := x + 1;
      }
      y := y + 1;
    }
    return None;
  }
}
