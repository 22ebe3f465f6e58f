/** The 19×19 grid of cells shared by the training, test and validation boards.
    A cell is empty (JavaScript `null` or `0`) or holds a stone with a sign
    (1 black, -1 white) and a move number (`null` for a setup stone). */
module Board {
  import opened Wrappers

  const Size: nat := 19

  datatype Cell = Empty | Stone(sign: int, number: Option<int>)

  /** Rows first: `g[y][x]`. */
  type Grid = seq<seq<Cell>>

  predicate IsBoard(g: Grid) {
    |g| == Size && forall r :: 0 <= r < |g| ==> |g[r]| == Size
  }

  predicate InRange(x: int, y: int) {
    0 <= x < Size && 0 <= y < Size
  }

  function EmptyBoard(): (g: Grid)
    ensures IsBoard(g)
    ensures forall y, x :: InRange(x, y) ==> g[y][x] == Empty
  {
    seq(Size, _ => seq(Size, _ => Empty))
  }

  /** The grid with the one cell at column `x`, row `y` replaced. */
  function Put(g: Grid, x: int, y: int, c: Cell): (r: Grid)
    requires IsBoard(g) && InRange(x, y)
    ensures IsBoard(r)
    ensures r[y][x] == c
    ensures forall y', x' :: InRange(x', y') && (x', y') != (x, y) ==> r[y'][x'] == g[y'][x']
  {
    g[y := g[y][x := c]]
  }
}
