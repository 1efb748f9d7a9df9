/**
 * The board as a value: an array-of-arrays of booleans, `true` for a lit
 * cell. This module holds the specification functions the Board class is
 * proved against, and what is proved about them.
 */
module Grid {

  type Cells = seq<seq<bool>>

  /** `g` has `rows` rows of `cols` cells each. */
  predicate IsGrid(g: Cells, rows: nat, cols: nat) {
    |g| == rows && forall i :: 0 <= i < |g| ==> |g[i]| == cols
  }

  /** The guard of flipCell: row y, column x lies on a rows-by-cols board. */
  predicate OnBoard(rows: nat, cols: nat, y: int, x: int) {
    0 <= x < cols && 0 <= y < rows
  }

  /** Every cell is off: the meaning the component gives to `hasWon`. */
  predicate AllOff(g: Cells) {
    forall i, j | 0 <= i < |g| && 0 <= j < |g[i]| :: !g[i][j]
  }

  // ---------------------------------------------------------------------------
  // Initial board
  // ---------------------------------------------------------------------------

  lemma RowMajorStep(rows: nat, cols: nat)
    requires rows >= 1
    ensures (rows - 1) * cols + cols == rows * cols
  {
  }

  /** Row i of a rows-by-cols board ends within the first rows * cols draws. */
  lemma {:induction false} RowFits(i: nat, rows: nat, cols: nat)
    requires i < rows
    ensures i * cols + cols <= rows * cols
  {
    RowMajorStep(rows, cols);
    if i < rows - 1 {
      RowFits(i, rows - 1, cols);
    }
  }

  /**
   * The board createBoard builds when the k-th random draw, in row-major order,
   * is replaced by `draws[k]`: row i is the slice of draws from i * cols.
   */
  function Generated(draws: seq<bool>, rows: nat, cols: nat): (g: Cells)
    requires rows * cols <= |draws|
    ensures IsGrid(g, rows, cols)
    decreases rows
  {
    if rows == 0 then []
    else
      RowMajorStep(rows, cols);
      Generated(draws, rows - 1, cols) + [draws[(rows - 1) * cols .. rows * cols]]
  }

  /** The initial board of i + 1 rows is that of i rows followed by the next cols draws. */
  lemma GeneratedNextRow(draws: seq<bool>, i: nat, cols: nat)
    requires i * cols + cols <= |draws|
    ensures (i + 1) * cols <= |draws|
    ensures Generated(draws, i + 1, cols) == Generated(draws, i, cols) + [draws[i * cols .. i * cols + cols]]
  {
    RowMajorStep(i + 1, cols);
  }

  /** Cell (i, j) of the initial board is the (i * cols + j)-th draw. */
  lemma {:induction false} GeneratedCell(draws: seq<bool>, rows: nat, cols: nat, i: nat, j: nat)
    requires rows * cols <= |draws|
    requires i < rows && j < cols
    ensures i * cols + j < |draws|
    ensures Generated(draws, rows, cols)[i][j] == draws[i * cols + j]
  {
    RowMajorStep(rows, cols);
    if i < rows - 1 {
      GeneratedCell(draws, rows - 1, cols, i, j);
    }
  }

  /** With no draw below the threshold, the board starts all off. */
  lemma NoLitDrawsGiveDarkBoard(draws: seq<bool>, rows: nat, cols: nat)
    requires rows * cols <= |draws|
    requires forall k :: 0 <= k < |draws| ==> !draws[k]
    ensures AllOff(Generated(draws, rows, cols))
  {
    forall i, j | 0 <= i < rows && 0 <= j < cols
      ensures !Generated(draws, rows, cols)[i][j]
    {
      GeneratedCell(draws, rows, cols, i, j);
    }
  }

  /** With every draw below the threshold, every cell starts lit. */
  lemma AllLitDrawsGiveLitBoard(draws: seq<bool>, rows: nat, cols: nat)
    requires rows * cols <= |draws|
    requires forall k :: 0 <= k < |draws| ==> draws[k]
    ensures forall i, j | 0 <= i < rows && 0 <= j < cols :: Generated(draws, rows, cols)[i][j]
    ensures rows >= 1 && cols >= 1 ==> !AllOff(Generated(draws, rows, cols))
  {
    forall i, j | 0 <= i < rows && 0 <= j < cols
      ensures Generated(draws, rows, cols)[i][j]
    {
      GeneratedCell(draws, rows, cols, i, j);
    }
    if rows >= 1 && cols >= 1 {
      assert Generated(draws, rows, cols)[0][0];
    }
  }

  // ---------------------------------------------------------------------------
  // flipCell
  // ---------------------------------------------------------------------------

  /** flipCell(y, x) on a rows-by-cols board: negate the cell if it is on the board. */
  function Flip(g: Cells, rows: nat, cols: nat, y: int, x: int): (r: Cells)
    requires IsGrid(g, rows, cols)
    ensures IsGrid(r, rows, cols)
    ensures forall i, j | 0 <= i < rows && 0 <= j < cols ::
              r[i][j] == if i == y && j == x then !g[i][j] else g[i][j]
  {
    if OnBoard(rows, cols, y, x) then g[y := g[y][x := !g[y][x]]] else g
  }

  /** Off the board, flipCell changes nothing: no error and no wrap-around. */
  lemma {:induction false} FlipOffBoard(g: Cells, rows: nat, cols: nat, y: int, x: int)
    requires IsGrid(g, rows, cols)
    requires !OnBoard(rows, cols, y, x)
    ensures Flip(g, rows, cols, y, x) == g
  {
    SameCells(Flip(g, rows, cols, y, x), g, rows, cols);
  }

  /** Two boards of the same shape that agree on every cell are equal. */
  lemma SameCells(a: Cells, b: Cells, rows: nat, cols: nat)
    requires IsGrid(a, rows, cols) && IsGrid(b, rows, cols)
    requires forall i, j | 0 <= i < rows && 0 <= j < cols :: a[i][j] == b[i][j]
    ensures a == b
  {
    forall i | 0 <= i < rows
      ensures a[i] == b[i]
    {
      assert forall j | 0 <= j < cols :: a[i][j] == b[i][j];
    }
  }

  /** Flipping the same cell twice restores the board. */
  lemma {:induction false} FlipTwice(g: Cells, rows: nat, cols: nat, y: int, x: int)
    requires IsGrid(g, rows, cols)
    ensures Flip(Flip(g, rows, cols, y, x), rows, cols, y, x) == g
  {
    SameCells(Flip(Flip(g, rows, cols, y, x), rows, cols, y, x), g, rows, cols);
  }

  // ---------------------------------------------------------------------------
  // The intended move (comments at src/Board.jsx:65, 81, 83 of the component);
  // the component as written does not perform it.
  // ---------------------------------------------------------------------------

  /** Cell (i, j) is the clicked cell (y, x) or one of its four orthogonal neighbours. */
  predicate InCross(i: int, j: int, y: int, x: int) {
    (i == y && -1 <= j - x <= 1) || (j == x && -1 <= i - y <= 1)
  }

  /** INTENDED: flip the clicked cell and the cells above, below, left and right of it. */
  function ToggleAround(g: Cells, rows: nat, cols: nat, y: int, x: int): (r: Cells)
    requires IsGrid(g, rows, cols)
    ensures IsGrid(r, rows, cols)
    ensures forall i, j | 0 <= i < rows && 0 <= j < cols :: r[i][j] == (g[i][j] != InCross(i, j, y, x))
  {
    var g1 := Flip(g, rows, cols, y, x);
    var g2 := Flip(g1, rows, cols, y, x - 1);
    var g3 := Flip(g2, rows, cols, y, x + 1);
    var g4 := Flip(g3, rows, cols, y - 1, x);
    Flip(g4, rows, cols, y + 1, x)
  }

  /** INTENDED move: making the same move twice restores the board. */
  lemma ToggleAroundTwice(g: Cells, rows: nat, cols: nat, y: int, x: int)
    requires IsGrid(g, rows, cols)
    ensures ToggleAround(ToggleAround(g, rows, cols, y, x), rows, cols, y, x) == g
  {
    var once := ToggleAround(g, rows, cols, y, x);
    SameCells(ToggleAround(once, rows, cols, y, x), g, rows, cols);
  }

  /** INTENDED move: a click entirely off the board changes nothing. */
  lemma ToggleAroundFarOff(g: Cells, rows: nat, cols: nat, y: int, x: int)
    requires IsGrid(g, rows, cols)
    requires forall i, j | 0 <= i < rows && 0 <= j < cols :: !InCross(i, j, y, x)
    ensures ToggleAround(g, rows, cols, y, x) == g
  {
    SameCells(ToggleAround(g, rows, cols, y, x), g, rows, cols);
  }

  /** INTENDED move: a click diagonally outside a corner touches no cell of the board. */
  lemma ToggleAroundOutsideCorner(g: Cells, rows: nat, cols: nat)
    requires IsGrid(g, rows, cols)
    ensures ToggleAround(g, rows, cols, -1, -1) == g
  {
    ToggleAroundFarOff(g, rows, cols, -1, -1);
  }

  /** INTENDED move on a 3-by-3 board with only the centre lit: the cross lights up around it. */
  lemma ToggleAroundCentreExample()
    ensures var f, t := false, true;
            ToggleAround([[f, f, f], [f, t, f], [f, f, f]], 3, 3, 1, 1) == [[f, t, f], [t, f, t], [f, t, f]]
  {
    var f, t := false, true;
    SameCells(ToggleAround([[f, f, f], [f, t, f], [f, f, f]], 3, 3, 1, 1), [[f, t, f], [t, f, t], [f, t, f]], 3, 3);
  }

  /** INTENDED move on a 1-by-1 lit board: the last light goes out and the board is all off. */
  lemma ToggleAroundLastLightExample()
    ensures ToggleAround([[true]], 1, 1, 0, 0) == [[false]]
    ensures AllOff(ToggleAround([[true]], 1, 1, 0, 0))
  {
    SameCells(ToggleAround([[true]], 1, 1, 0, 0), [[false]], 1, 1);
  }
}
