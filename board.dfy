/**
 * The Lights Out board component: its two state fields, the construction of
 * the initial board, flipCell, and flipCellsAround as it stands in
 * src/Board.jsx (the five-cell move and the win check are still TODO there),
 * together with the intended version of flipCellsAround, kept apart.
 */
module LightsOut {
  import opened Coordinates
  import opened Grid

  /** The component's default nRows and nCols props. */
  const DefaultRows: nat := 5
  const DefaultCols: nat := 5

  /**
   * createBoard: nRows rows, each built in a fresh array of nCols cells; cell j
   * of row i is lit when the next random draw falls below chanceLightStartsOn.
   * `draws` stands for those comparisons, consumed in row-major order.
   */
  method CreateBoard(nRows: nat, nCols: nat, draws: seq<bool>) returns (board: Cells)
    requires nRows * nCols <= |draws|
    ensures board == Generated(draws, nRows, nCols)
  {
    board := [];
    var next := 0;  // how many draws have been consumed
    for i := 0 to nRows
      invariant next == i * nCols
      invariant board == Generated(draws, i, nCols)
    {
      RowFits(i, nRows, nCols);
      GeneratedNextRow(draws, i, nCols);
      var start := next;
      var newCol := new bool[nCols];
      for j := 0 to newCol.Length
        invariant next == start + j
        invariant newCol[..j] == draws[start .. next]
      {
        if draws[next] {
          newCol[j] := true;
        } else {
          newCol[j] := false;
        }
        next := next + 1;
      }
      assert newCol[..] == draws[start .. start + nCols];
      board := board + [newCol[..]];
    }
  }

  class Board {
    const nRows: nat
    const nCols: nat
    /** The board state field: nRows rows of nCols cells, true for lit. */
    var board: Cells
    /** The hasWon state field, documented as "true when board is all off". */
    var hasWon: bool

    ghost predicate Valid()
      reads this
    {
      IsGrid(board, nRows, nCols)
    }

    /** The constructor: hasWon starts false and board is createBoard's result. */
    constructor (nRows: nat, nCols: nat, draws: seq<bool>)
      requires nRows * nCols <= |draws|
      ensures Valid()
      ensures this.nRows == nRows && this.nCols == nCols
      ensures board == Generated(draws, nRows, nCols)
      ensures !hasWon
    {
      this.nRows := nRows;
      this.nCols := nCols;
      var cells := CreateBoard(nRows, nCols, draws);
      board := cells;
      hasWon := false;
    }

    /** flipCell(y, x): negate board[y][x] when (y, x) is on the board, else do nothing. */
    method FlipCell(y: int, x: int)
      requires Valid()
      modifies this
      ensures Valid()
      ensures board == Flip(old(board), nRows, nCols, y, x)
      ensures hasWon == old(hasWon)
    {
      if x >= 0 && x < nCols && y >= 0 && y < nRows {
        board := board[y := board[y][x := !board[y][x]]];
      }
    }

    /**
     * flipCellsAround(coord) as written: the coordinate is parsed and flipCell
     * is defined, but no cell is flipped and hasWon is set to true regardless
     * of the board.
     */
    method FlipCellsAround(coord: string)
      requires Valid()
      modifies this
      ensures Valid()
      ensures board == old(board)
      ensures hasWon
    {
      var cells := board;
      var yx := ParseCoord(coord);
      board, hasWon := cells, true;
    }

    /**
     * INTENDED flipCellsAround(coord), after the comments of the component:
     * flip the clicked cell and its four orthogonal neighbours, then set
     * hasWon exactly when every cell is off. A coordinate that does not parse
     * flips nothing.
     */
    method FlipCellsAroundIntended(coord: string)
      requires Valid()
      modifies this
      ensures Valid()
      ensures ParseCoord(coord).Some? ==>
                board == ToggleAround(old(board), nRows, nCols, ParseCoord(coord).value.0, ParseCoord(coord).value.1)
      ensures ParseCoord(coord).None? ==> board == old(board)
      ensures hasWon <==> AllOff(board)
    {
      var yx := ParseCoord(coord);
      if yx.Some? {
        var (y, x) := yx.value;
        FlipCell(y, x);
        FlipCell(y, x - 1);
        FlipCell(y, x + 1);
        FlipCell(y - 1, x);
        FlipCell(y + 1, x);
      }
      hasWon := AllOff(board);
    }
  }

  /**
   * As written, a board with a lit cell is reported won after one click:
   * on a 1-by-1 board whose only cell starts lit, clicking "0-0" leaves the
   * cell lit and sets hasWon.
   */
  method WonWhileLit() returns (b: Board)
    ensures b.hasWon && !AllOff(b.board)
  {
    b := new Board(1, 1, [true]);
    GeneratedCell([true], 1, 1, 0, 0);
    b.FlipCellsAround("0-0");
  }

  /**
   * With the intended move, the same click puts the last light out and the
   * board is reported won.
   */
  method IntendedWinOnLastLight() returns (b: Board)
    ensures b.hasWon && AllOff(b.board)
  {
    b := new Board(1, 1, [true]);
    GeneratedCell([true], 1, 1, 0, 0);
    ParseCoordOfPair("0", "0");
    assert "0-0" == "0" + [Separator] + "0";
    b.FlipCellsAroundIntended("0-0");
  }

  /**
   * The constructor reports hasWon false even when every draw leaves its cell
   * off, so a default-size board can start all off and not won.
   */
  method DarkStartNotWon() returns (b: Board)
    ensures !b.hasWon && AllOff(b.board)
    ensures b.nRows == DefaultRows && b.nCols == DefaultCols
  {
    var draws := seq(DefaultRows * DefaultCols, _ => false);
    NoLitDrawsGiveDarkBoard(draws, DefaultRows, DefaultCols);
    b := new Board(DefaultRows, DefaultCols, draws);
  }
}
