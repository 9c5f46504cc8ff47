/** The level: a row-major grid of cells, each BLOCK cell becoming a 50x50 block. */
module Level {
  import opened Geometry

  // The cell marker of a block; every other value is an empty cell
  const BLOCK: int := 1

  /**
   * The hardcoded level: seven rows of sixteen cells, the last row a solid
   * floor. It is the grid the game passes to `Game.World.Init`, whose
   * properties are proved for every grid.
   */
  const LEVEL: seq<seq<int>> := [
    [0, 0, 0, 0, 0, 0, 0, 0, 0, 0, 0, 0, 0, 0, 0, 0],
    [0, 0, 0, 0, 0, 0, 0, 0, 0, 0, 0, 0, 0, 0, 0, 0],
    [0, 0, 0, 0, 0, 0, 0, 0, 0, 0, 0, 0, 0, 0, 0, 0],
    [0, 0, 0, 0, 0, 0, 0, 0, 0, 0, 0, 0, 0, 0, 0, 0],
    [0, 0, 0, 0, 0, 0, 0, 0, 1, 0, 0, 0, 0, 0, 0, 0],
    [0, 0, 0, 0, 0, 1, 0, 0, 0, 0, 0, 0, 0, 0, 0, 1],
    [1, 1, 1, 1, 1, 1, 1, 1, 1, 1, 1, 1, 1, 1, 1, 1]
  ]

  /** The block of the cell in row `row`, column `col`. */
  function BlockAt(row: int, col: int): Box {
    Box(col * DEFAULT_BLOCK_WIDTH, row * DEFAULT_BLOCK_HEIGHT, DEFAULT_BLOCK_WIDTH, DEFAULT_BLOCK_HEIGHT)
  }

  predicate IsBlockCell(grid: seq<seq<int>>, row: int, col: int) {
    0 <= row < |grid| && 0 <= col < |grid[row]| && grid[row][col] == BLOCK
  }

  /** The blocks of the cells of `cells`, which is (a prefix of) row `row`, left to right. */
  function RowBoxes(cells: seq<int>, row: int): (r: seq<Box>)
    ensures forall k :: 0 <= k < |r| ==>
      r[k].y == row * DEFAULT_BLOCK_HEIGHT && 0 <= r[k].x < |cells| * DEFAULT_BLOCK_WIDTH
    decreases |cells|
  {
    if cells == [] then []
    else
      var col := |cells| - 1;
      RowBoxes(cells[..col], row) + (if cells[col] == BLOCK then [BlockAt(row, col)] else [])
  }

  /** The blocks of a grid (or of its first rows), in row-major order. */
  function GridBoxes(grid: seq<seq<int>>): (r: seq<Box>)
    ensures forall k :: 0 <= k < |r| ==> 0 <= r[k].y < |grid| * DEFAULT_BLOCK_HEIGHT
    decreases |grid|
  {
    if grid == [] then []
    else
      var row := |grid| - 1;
      GridBoxes(grid[..row]) + RowBoxes(grid[row], row)
  }

  /** One more cell of a row adds that cell's block, if any, at the end. */
  lemma RowBoxesStep(cells: seq<int>, j: int, row: int)
    requires 0 <= j < |cells|
    ensures RowBoxes(cells[..j + 1], row)
      == RowBoxes(cells[..j], row) + (if cells[j] == BLOCK then [BlockAt(row, j)] else [])
  {
    assert cells[..j + 1][..j] == cells[..j];
  }

  /** One more row of a grid adds that row's blocks at the end. */
  lemma GridBoxesStep(grid: seq<seq<int>>, i: int)
    requires 0 <= i < |grid|
    ensures GridBoxes(grid[..i + 1]) == GridBoxes(grid[..i]) + RowBoxes(grid[i], i)
  {
    assert grid[..i + 1][..i] == grid[..i];
  }

  /** `a` comes before `b` in row-major order. */
  predicate Before(a: Box, b: Box) {
    a.y < b.y || (a.y == b.y && a.x < b.x)
  }

  predicate RowMajor(boxes: seq<Box>) {
    forall i, j :: 0 <= i < j < |boxes| ==> Before(boxes[i], boxes[j])
  }

  /** A row yields a block exactly for each of its BLOCK cells. */
  lemma {:induction false} RowBoxesExact(cells: seq<int>, row: int, b: Box)
    ensures b in RowBoxes(cells, row) <==>
      exists col :: 0 <= col < |cells| && cells[col] == BLOCK && b == BlockAt(row, col)
    decreases |cells|
  {
    if cells != [] {
      var last := |cells| - 1;
      var init := cells[..last];
      var tail := if cells[last] == BLOCK then [BlockAt(row, last)] else [];
      assert RowBoxes(cells, row) == RowBoxes(init, row) + tail;
      RowBoxesExact(init, row, b);
      if b in RowBoxes(cells, row) {
        if b in RowBoxes(init, row) {
          var col :| 0 <= col < |init| && init[col] == BLOCK && b == BlockAt(row, col);
          assert cells[col] == BLOCK;
        } else {
          assert b in tail;
        }
      }
      if exists col :: 0 <= col < |cells| && cells[col] == BLOCK && b == BlockAt(row, col) {
        var col :| 0 <= col < |cells| && cells[col] == BLOCK && b == BlockAt(row, col);
        if col < last {
          assert init[col] == BLOCK;
          assert b in RowBoxes(init, row);
        } else {
          assert b in tail;
        }
      }
    }
  }

  /** The grid yields a block exactly for each of its BLOCK cells. */
  lemma {:induction false} GridBoxesExact(grid: seq<seq<int>>, b: Box)
    ensures b in GridBoxes(grid) <==>
      exists row, col :: IsBlockCell(grid, row, col) && b == BlockAt(row, col)
    decreases |grid|
  {
    if grid != [] {
      var last := |grid| - 1;
      var init := grid[..last];
      assert GridBoxes(grid) == GridBoxes(init) + RowBoxes(grid[last], last);
      GridBoxesExact(init, b);
      RowBoxesExact(grid[last], last, b);
      if b in RowBoxes(grid[last], last) {
        var col :| 0 <= col < |grid[last]| && grid[last][col] == BLOCK && b == BlockAt(last, col);
        assert IsBlockCell(grid, last, col);
      }
      if b in GridBoxes(init) {
        var row, col :| IsBlockCell(init, row, col) && b == BlockAt(row, col);
        assert IsBlockCell(grid, row, col);
      }
      if exists row, col :: IsBlockCell(grid, row, col) && b == BlockAt(row, col) {
        var row, col :| IsBlockCell(grid, row, col) && b == BlockAt(row, col);
        if row < last {
          assert IsBlockCell(init, row, col);
        } else {
          assert 0 <= col < |grid[last]| && grid[last][col] == BLOCK;
        }
      }
    }
  }

  /** Concatenating row-major runs, the first wholly before the second, is row-major. */
  lemma RowMajorAppend(a: seq<Box>, b: seq<Box>)
    requires RowMajor(a) && RowMajor(b)
    requires forall i, j :: 0 <= i < |a| && 0 <= j < |b| ==> Before(a[i], b[j])
    ensures RowMajor(a + b)
  {
  }

  lemma {:induction false} RowBoxesRowMajor(cells: seq<int>, row: int)
    ensures RowMajor(RowBoxes(cells, row))
    decreases |cells|
  {
    if cells != [] {
      RowBoxesRowMajor(cells[..|cells| - 1], row);
      RowMajorAppend(RowBoxes(cells[..|cells| - 1], row),
                     if cells[|cells| - 1] == BLOCK then [BlockAt(row, |cells| - 1)] else []);
    }
  }

  /** The blocks come out in row-major order, hence each BLOCK cell exactly once. */
  lemma {:induction false} GridBoxesRowMajor(grid: seq<seq<int>>)
    ensures RowMajor(GridBoxes(grid))
    decreases |grid|
  {
    if grid != [] {
      var last := |grid| - 1;
      GridBoxesRowMajor(grid[..last]);
      RowBoxesRowMajor(grid[last], last);
      RowMajorAppend(GridBoxes(grid[..last]), RowBoxes(grid[last], last));
    }
  }
}
