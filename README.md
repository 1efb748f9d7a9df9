# Lights Out board, modelled in Dafny

This project models the board state of the Lights Out game component in
`src/Board.jsx`. The component holds two state fields. `board` is an
array-of-arrays of booleans, with `true` for a lit cell. `hasWon` is documented
as "true when board is all off". The model covers three pieces of the component:

- **createBoard**: nested loops build `nRows` rows of `nCols` cells. Each cell is lit
  when a random draw falls below `chanceLightStartsOn`. Here the draws are a
  `seq<bool>` consumed in row-major order.
- **flipCell**: negates `board[y][x]` when the cell is on the board, and does
  nothing otherwise.
- **flipCellsAround**, as the code stands: it parses a `"y-x"` coordinate and
  defines `flipCell`, but never calls it. It then sets `hasWon` to `true`
  whatever the board holds.

The neighbour flip and the win check are still TODO comments in the component.
They are modelled apart and labelled INTENDED (`Grid.ToggleAround`,
`LightsOut.Board.FlipCellsAroundIntended`). Nothing presents them as what
`flipCellsAround` does.

The component's own comments describe a finished move: `hasWon` is "true when
board is all off" (src/Board.jsx:15), and a click should flip the cell and the
cells around it and then determine whether the game is won
(src/Board.jsx:65, 81, 83). The code does neither. This model follows the code
and shows the gap (see "## Findings").

Files:

- `coordinates.dfy` (module `Coordinates`): `coord.split('-').map(Number)` on the
  cell identifier, and the encoding it inverts.
- `grid.dfy` (module `Grid`): the board as a value. It holds the specification
  functions (`Generated`, `Flip`, `AllOff`, and the intended `ToggleAround`)
  and the lemmas about them.
- `board.dfy` (module `LightsOut`): the `CreateBoard` method with its nested loops
  and a fresh array per row. It also holds the `Board` class with the fields
  `board` and `hasWon`, its constructor and methods, and three example scenarios.

## Model

| member | source | states |
|---|---|---|
| LightsOut.CreateBoard | src/Board.jsx:46-62 | The nested loops build exactly `Generated(draws, nRows, nCols)`: row i is the i-th run of nCols draws |
| Grid.Generated | src/Board.jsx:49-61 | The initial board has exactly nRows rows, each of exactly nCols cells |
| Grid.GeneratedCell | src/Board.jsx:49-58 | Cell (i, j) is lit iff draw number i * nCols + j, in row-major order, is below the threshold (and that draw exists) |
| Grid.NoLitDrawsGiveDarkBoard | src/Board.jsx:54-58 | If no draw falls below the threshold, every cell starts off |
| Grid.AllLitDrawsGiveLitBoard | src/Board.jsx:54-58 | If every draw falls below the threshold, every cell starts lit, and a board with at least one cell is then not all off |
| LightsOut.Board.constructor | src/Board.jsx:37-42 | The initial state is `hasWon == false` with `board` equal to createBoard's result for the given draws, of nRows by nCols cells |
| LightsOut.DarkStartNotWon | src/Board.jsx:41 | A default 5-by-5 board whose draws are all unlit starts all off, yet `hasWon` is false |
| Grid.Flip | src/Board.jsx:73-78 | flipCell keeps the board shape; it negates cell (y, x) when it is on the board and leaves every other cell as it was |
| LightsOut.Board.FlipCell | src/Board.jsx:73-78 | The method's new board is `Flip` of the old one at (y, x), and `hasWon` is unchanged |
| Grid.FlipOffBoard | src/Board.jsx:76 | With x < 0, x >= nCols, y < 0 or y >= nRows, flipCell leaves the board unchanged: no error, no wrap-around |
| Grid.FlipTwice | src/Board.jsx:77 | Flipping the same coordinate twice restores the original board |
| Coordinates.Split | src/Board.jsx:70 | `split('-')` gives at least one piece, no piece contains '-', and joining the pieces with '-' gives the input back |
| Coordinates.SplitJoin | src/Board.jsx:70 | Splitting pieces joined with '-' gives the pieces back, when no piece contains '-' |
| Coordinates.Number | src/Board.jsx:70 | `Number()` on one piece: the exact value of a digit string, with "" giving 0; `None` exactly when some character is not a digit 0-9 (NaN and Number()'s other conversions are left out) |
| Coordinates.NumberOfDecimal | src/Board.jsx:70 | `Number()` reads the decimal text of any natural number back as that number |
| Coordinates.ParseCoord | src/Board.jsx:70 | `let [y, x] = coord.split('-').map(Number)`: a result exists only when the text contains '-' and the first two pieces of the split are digit strings; further pieces are ignored; `None` otherwise (the full value is given by ParseCoordOfParts) |
| Coordinates.ParseCoordOfParts | src/Board.jsx:70 | For pieces joined with '-', the coordinate is the values of the first two pieces when they are digit strings; further pieces are ignored |
| Coordinates.ParseCoordOfPair | src/Board.jsx:70 | For decimal digit strings a and b, parsing `a + "-" + b` gives (y, x) = (value of a, value of b) |
| Coordinates.Decimal | src/Board.jsx:70 | Reference encoding, not code in the file (render is still TODO, so Board.jsx never builds an identifier): a number's decimal text is a non-empty digit string, used to state what line 70's parse inverts |
| Coordinates.DecimalRoundTrip | src/Board.jsx:70 | Reading back a number's decimal text gives the number |
| Coordinates.EncodeCoord | src/Board.jsx:70 | Reference encoding, not code in the file: the identifier "y-x" that line 70's parse is proved against splits into exactly the decimal texts of y and x |
| Coordinates.ParseEncodeRoundTrip | src/Board.jsx:70 | Parsing the identifier "y-x" of any cell gives back (y, x) |
| LightsOut.Board.FlipCellsAround | src/Board.jsx:67-87 | As written: the board is unchanged whatever the coordinate, and `hasWon` is true afterwards |
| LightsOut.WonWhileLit | src/Board.jsx:86 | As written: a 1-by-1 board starting lit, clicked at "0-0", is left lit with `hasWon` true, against the documented meaning "all off" |
| Grid.ToggleAround | src/Board.jsx:81 | INTENDED move: exactly the on-board cells of the cross at (y, x) (the cell and its four orthogonal neighbours) change; all others keep their value, and the shape is kept |
| Grid.ToggleAroundTwice | src/Board.jsx:81 | INTENDED move: making the same move twice restores the board |
| Grid.ToggleAroundFarOff | src/Board.jsx:76-81 | INTENDED move: a click whose cross lies wholly off the board (no cell of the board is the clicked cell or one of its orthogonal neighbours) changes nothing |
| Grid.ToggleAroundOutsideCorner | src/Board.jsx:76-81 | INTENDED move: a click at (-1, -1), diagonally outside the top-left corner, leaves every board unchanged |
| Grid.ToggleAroundCentreExample | src/Board.jsx:81 | INTENDED move: on a 3-by-3 board lit only at the centre, clicking the centre gives `[[f,t,f],[t,f,t],[f,t,f]]` |
| Grid.ToggleAroundLastLightExample | src/Board.jsx:83-84 | INTENDED move: on `[[true]]`, clicking (0, 0) gives `[[false]]`, which is all off |
| LightsOut.Board.FlipCellsAroundIntended | src/Board.jsx:81-84 | INTENDED: the board becomes `ToggleAround` of the old board at the parsed coordinate (unchanged when the coordinate does not parse), and `hasWon` holds iff every cell is off |
| LightsOut.IntendedWinOnLastLight | src/Board.jsx:83-84 | INTENDED: on a 1-by-1 lit board, clicking "0-0" leaves it all off with `hasWon` true |

## Findings

| source | as written | input that shows it | evidently intended | confidence | as-written member | corrected member |
|---|---|---|---|---|---|---|
| src/Board.jsx:86 | `flipCellsAround` flips no cell and sets `hasWon: true` unconditionally | A 1-by-1 board `[[true]]` clicked at "0-0" stays `[[true]]`, yet `hasWon` becomes true | Flip the clicked cell and its orthogonal neighbours, then set `hasWon` iff every cell is off, as the comments at lines 15, 65, 81 and 83 say | high (the code is unfinished, with TODOs at lines 81 and 84); not executed | LightsOut.WonWhileLit | LightsOut.Board.FlipCellsAroundIntended |

## Left out

- Rendering: `render`, the `Cell` import and the stylesheet import (src/Board.jsx:1-3, 91-97) are output only.
- Randomness and floating point: `Math.random()` and the comparison with `chanceLightStartsOn` (src/Board.jsx:54) become the boolean sequence `draws`. The caller must supply at least nRows * nCols draws.
- Number() beyond plain digit strings: `Coordinates.Number` and `Coordinates.ParseCoord` give `None` for any piece that is not made only of the digits 0-9. That covers NaN and Number()'s other conversions, such as whitespace, signs, hexadecimal and exponents. The empty piece gives 0, as Number("") does.
- Coordinates.DecimalValue, Coordinates.Number and Coordinates.ParseCoordOfPair: a digit string's value is exact here, whereas Number() at src/Board.jsx:70 returns a double that rounds above 2^53 (so "9007199254740993-0" gives row 9007199254740992 in the component). Likewise `Coordinates.Decimal` never uses exponent form, which JavaScript uses for numbers of 1e21 and up. Such coordinates lie off any board either way.
- React `setState` (src/Board.jsx:86): treated as a plain, immediate assignment of both state fields. Asynchronous merging and re-rendering are not modelled.
- Aliasing: in the component, the local `board` is the same array as the state's, and `flipCell` mutates it in place. In the model the board is a sequence value that the methods reassign to the field, so sharing of that array with other holders is not captured.
- Props: `nRows` and `nCols` are natural numbers here. Fractional or negative props are not modelled.
- LightsOut.Board.FlipCellsAroundIntended: this is not the component's behaviour. It models the TODOs at src/Board.jsx:81-84. On a coordinate that does not parse it flips nothing, which is a choice of this model.
- Counting the changed cells of a corner, edge or interior click is not stated as a number. The contract of `Grid.ToggleAround` says cell by cell which cells change.
