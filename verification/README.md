# Tic-tac-toe board rules, verified in Dafny

This project models the rules engine of a two-player web tic-tac-toe server:
the board that both players of a match share. It covers:

- the marks and the flip between the two players;
- the turn request and the placeholder "wrong turn";
- the 3 by 3 grid of marks and the parallel 3 by 3 grid of winning-line annotations;
- the legality check and `makeTurn`, the only operation that changes the board;
- the win detector;
- the derived draw flag;
- the generic list-of-lists transpose the detector uses to read columns.

Layout, one module per concern of `TicTacToe.kt`:

- `marks.dfy`, module `Marks`. Contents: `Mark` (`Noughts`, `Crosses`, `Empty`), its character code, `Change`, `Crossing`, `GridSize`, `Turn`, `WrongTurn`.
- `lists.dfy`, module `Lists`. Contents: `Transpose`, written the way the source writes it. It drops empty rows, takes the heads as the first result row, and recurses on the tails.
- `rules.dfy`, module `Rules`. This is the pure specification:
  - `Legal`, the legality of a turn;
  - `Filled`, the number of occupied cells;
  - the eight winning `Lines` with `HasWin`/`WonBy`;
  - `Judge`, the verdict the win detector must reach;
  - the lemmas that say what `Judge` means.
- `game.dfy`, module `Game`. This holds the class `TicTacToe`. Its fields are `activePlayer`, `winner`, `turnCounter`, `grid` and `crossing`, and `MakeTurn` and `CheckWinner` update them in place. The object invariant `Valid()` says:
  - both grids are 3 by 3;
  - a player is active;
  - `turnCounter` equals the number of marks on the grid, so it never exceeds 9;
  - there is a winner exactly when one of the eight lines is complete, and the winner owns such a line;
  - nothing is annotated while there is no winner.

  `RowWinScenario` is a client. It plays crosses (0,0), noughts (1,1), crosses (0,1), noughts (2,2), crosses (0,2), and then checks three things from the contracts alone: crosses win, row 0 is annotated `Horizontal`, and the next turn is refused.

Win detection follows the code:

- Rows are searched first, then the columns of the transposed grid. Each search stops at the first complete line.
- The two diagonals are examined only when neither search found a line.
- The two diagonal checks are independent of each other. When both diagonals are complete, the code annotates both, so more than one line can be annotated, and the centre cell ends up `DiagonalDownUp` (lemma `BothDiagonals`).
- The anti-diagonal check takes the winner from cell (1,1), not from (2,0), the first cell it tests. The line is uniform, so both cells hold the same mark. `DiagonalWin` states the winner as `g[2][0]` and proves it agrees with the code.

## Model

| member | source | states |
|---|---|---|
| `Marks.Change` | src/commonMain/kotlin/com/github/igormich/tictactoe/TicTacToe.kt:39-43 | flipping a player gives the other player: never `Empty`, never the input; flipping `Empty` is excluded by the precondition (the source throws) |
| `Marks.Code` | src/commonMain/kotlin/com/github/igormich/tictactoe/TicTacToe.kt:30-33 | the display character of each mark: 'O' for noughts, 'X' for crosses, a space exactly for an empty cell; `CodeInjective` proves no two marks share one |
| `Marks.ChangeTwice` | src/commonMain/kotlin/com/github/igormich/tictactoe/TicTacToe.kt:39-43 | flipping twice is the identity; `Noughts` flips to `Crosses` and only it does |
| `Marks.CodeInjective` | src/commonMain/kotlin/com/github/igormich/tictactoe/TicTacToe.kt:30-33 | the three display characters are distinct, so a mark is determined by its character |
| `Rules.WrongTurnRejected` | src/commonMain/kotlin/com/github/igormich/tictactoe/TicTacToe.kt:62 | the placeholder turn (-1, -1, EMPTY) is never legal, on any board, whoever is active and whatever the winner |
| `Rules.Legal` | src/commonMain/kotlin/com/github/igormich/tictactoe/TicTacToe.kt:89-96 | a turn is legal exactly when there is no winner yet, the turn carries the active player's mark, 0 <= x, y < 3, and cell (x, y) is empty; `WrongTurnRejected`, `FullBoardRejects` and `PlaceCounts` state its consequences |
| `Rules.PlaceCounts` | src/commonMain/kotlin/com/github/igormich/tictactoe/TicTacToe.kt:98-101 | writing a mark into an empty cell adds exactly one occupied cell and keeps the grid 3 by 3, so incrementing the counter keeps it equal to the number of marks |
| `Rules.Update` | src/commonMain/kotlin/com/github/igormich/tictactoe/TicTacToe.kt:101 | writing v into cell (i, j) keeps every row length, puts v at (i, j) and leaves every other cell as it was |
| `Rules.FilledSquare` | src/commonMain/kotlin/com/github/igormich/tictactoe/TicTacToe.kt:70-80 | a 3 by 3 grid holds at most 9 marks, and holds 9 exactly when no cell is empty |
| `Rules.FullBoardRejects` | src/commonMain/kotlin/com/github/igormich/tictactoe/TicTacToe.kt:72-73 | on a grid with 9 marks (what `draw` requires of the counter) no turn is legal, whoever is active |
| `Rules.DistinctOne` | src/commonMain/kotlin/com/github/igormich/tictactoe/TicTacToe.kt:111 | the source's test "exactly one distinct mark, and the first is not EMPTY" holds exactly when the line is non-empty, its first mark is not `Empty` and every cell equals the first |
| `Rules.Elements` | src/commonMain/kotlin/com/github/igormich/tictactoe/TicTacToe.kt:111 | the set of distinct marks of a line (`distinct()`); its size is what the line test compares with 1 |
| `Rules.Uniform3` | src/commonMain/kotlin/com/github/igormich/tictactoe/TicTacToe.kt:126-133 | for a three-cell line, a complete line is exactly the diagonal tests' "first not `Empty`, and three equal marks" |
| `Rules.TransposeColumns` | src/commonMain/kotlin/com/github/igormich/tictactoe/TicTacToe.kt:117 | the transposed 3 by 3 grid has three lines, and line i is column i of the grid |
| `Rules.FirstUniform` | src/commonMain/kotlin/com/github/igormich/tictactoe/TicTacToe.kt:110-116 | the index found is the least index whose line is uniform; none is found only when no line is uniform |
| `Rules.Judge` | src/commonMain/kotlin/com/github/igormich/tictactoe/TicTacToe.kt:109-139 | the annotation grid keeps its 3 by 3 shape; what the verdict is, is stated by the four lemmas below |
| `Rules.MainDiagonalCheck` | src/commonMain/kotlin/com/github/igormich/tictactoe/TicTacToe.kt:126-132 | when the main diagonal is complete, its mark becomes the winner and its three cells are annotated `DiagonalUpDown`; otherwise the verdict so far is kept; the annotation grid stays 3 by 3 |
| `Rules.AntiDiagonalCheck` | src/commonMain/kotlin/com/github/igormich/tictactoe/TicTacToe.kt:133-138 | when the anti-diagonal is complete, the centre mark becomes the winner and its three cells are annotated `DiagonalDownUp`, overwriting the centre; otherwise the verdict so far is kept; the annotation grid stays 3 by 3 |
| `Rules.RowWin` | src/commonMain/kotlin/com/github/igormich/tictactoe/TicTacToe.kt:110-116 | when row i is the first complete row, its mark wins and exactly the cells of row i are annotated `Horizontal`, whatever columns or diagonals are also complete |
| `Rules.FillRow` | src/commonMain/kotlin/com/github/igormich/tictactoe/TicTacToe.kt:113 | a row of the same length with every annotation set to the given one (`fill`) |
| `Rules.ColumnWin` | src/commonMain/kotlin/com/github/igormich/tictactoe/TicTacToe.kt:117-125 | with no complete row, when column i is the first complete column, its mark wins and exactly the cells of column i are annotated `Vertical` |
| `Rules.MarkColumn` | src/commonMain/kotlin/com/github/igormich/tictactoe/TicTacToe.kt:120-122 | the annotation grid stays 3 by 3; what it holds is stated by `MarkColumnStep` (no row marked leaves it as it was, and each further row is one `Vertical` write at (n, i)) and, for all three rows, by `ColumnWin` |
| `Rules.DiagonalWin` | src/commonMain/kotlin/com/github/igormich/tictactoe/TicTacToe.kt:126-138 | with no complete row or column, each complete diagonal is annotated on its own cells only, with the anti-diagonal overwriting the centre; the winner is the complete diagonal's mark, and the old winner stays when neither diagonal is complete |
| `Rules.BothDiagonals` | src/commonMain/kotlin/com/github/igormich/tictactoe/TicTacToe.kt:126-138 | on the grid with crosses on the corners and centre and noughts on the edges, crosses win, the four corners and the centre are annotated, and the centre is `DiagonalDownUp` |
| `Rules.JudgeDecides` | src/commonMain/kotlin/com/github/igormich/tictactoe/TicTacToe.kt:109-139 | with no winner before, the detector finds a winner exactly when one of the eight lines is complete; the winner is the mark of a complete line; with no complete line the annotations are unchanged |
| `Lists.NonEmptyRows` | src/commonMain/kotlin/com/github/igormich/tictactoe/TicTacToe.kt:148 | every row of the result is non-empty and the total number of elements is kept; it is the identity when no row is empty and gives the empty list when every row is empty |
| `Lists.NonEmptyRowsMembers` | src/commonMain/kotlin/com/github/igormich/tictactoe/TicTacToe.kt:148 | a row is in the result if and only if it is a non-empty row of the input |
| `Lists.NonEmptyRowsAppend` | src/commonMain/kotlin/com/github/igormich/tictactoe/TicTacToe.kt:148 | filtering a concatenation is concatenating the filtered parts, so the kept rows stay in input order; with the single-row cases of `NonEmptyRows` this pins the result down as an order-keeping filter |
| `Lists.Transpose` | src/commonMain/kotlin/com/github/igormich/tictactoe/TicTacToe.kt:142-154 | on any input, ragged or not, the total number of elements is kept and no row of the result is empty |
| `Lists.TransposeElems` | src/commonMain/kotlin/com/github/igormich/tictactoe/TicTacToe.kt:142-154 | on any input, ragged or not, the result holds exactly the input's elements, each as often as in the input |
| `Lists.NonEmptyRowsElems` | src/commonMain/kotlin/com/github/igormich/tictactoe/TicTacToe.kt:148 | dropping the empty rows drops no element |
| `Lists.HeadsTailsElems` | src/commonMain/kotlin/com/github/igormich/tictactoe/TicTacToe.kt:144-145 | the heads and the tails of non-empty rows together hold exactly the rows' elements |
| `Lists.Heads` | src/commonMain/kotlin/com/github/igormich/tictactoe/TicTacToe.kt:144 | the first element of every row (`head()` mapped over the rows) |
| `Lists.Tails` | src/commonMain/kotlin/com/github/igormich/tictactoe/TicTacToe.kt:145 | every row without its first element (`tail()` mapped over the rows) |
| `Lists.TransposeOfNothing` | src/commonMain/kotlin/com/github/igormich/tictactoe/TicTacToe.kt:148-153 | the empty list, or a list of only empty rows, transposes to the empty list |
| `Lists.TransposeRect` | src/commonMain/kotlin/com/github/igormich/tictactoe/TicTacToe.kt:142-154 | m > 0 rows of length n transpose to n rows of length m, with element (i, j) of the result equal to element (j, i) of the input |
| `Lists.TransposeTwice` | src/commonMain/kotlin/com/github/igormich/tictactoe/TicTacToe.kt:142-154 | transposing a rectangular list with at least one row and one column twice gives it back |
| `Game.TicTacToe.constructor` | src/commonMain/kotlin/com/github/igormich/tictactoe/TicTacToe.kt:65-87 | a fresh board has every cell `Empty`, every annotation `None`, no winner, counter 0, the given player active, and satisfies the board invariant |
| `Game.TicTacToe.Draw` | src/commonMain/kotlin/com/github/igormich/tictactoe/TicTacToe.kt:72-73 | the game is drawn when there is no winner and 9 turns were played; `FullBoardRejects` and `FilledSquare` show that then the grid is full and no turn is legal |
| `Game.TicTacToe.MakeTurn` | src/commonMain/kotlin/com/github/igormich/tictactoe/TicTacToe.kt:89-107 | returns true exactly when the turn is legal: no winner, the turn's mark is the active player's, 0 <= x, y < 3, and cell (x, y) is empty. It returns false once there is a winner or the game is a draw. A refused turn changes nothing. An accepted turn does three things: the counter goes up by one; the active mark goes into (x, y) and every other cell is unchanged; the active player flips. Winner and annotations are then the verdict of the detector, and the board invariant is kept |
| `Game.TicTacToe.CheckWinner` | src/commonMain/kotlin/com/github/igormich/tictactoe/TicTacToe.kt:109-139 | the row loop, the column loop over the transposed grid and the two diagonal checks leave the grid, counter and active player alone, and set winner and annotations to the verdict `Judge` prescribes |
| `Game.TicTacToe.MarkColumnCells` | src/commonMain/kotlin/com/github/igormich/tictactoe/TicTacToe.kt:120-122 | the loop over the rows annotates exactly column i `Vertical` in every row, leaving every other annotation, the winner, the grid, the counter and the active player alone |
| `Game.TicTacToe.CheckDiagonals` | src/commonMain/kotlin/com/github/igormich/tictactoe/TicTacToe.kt:126-138 | runs the main-diagonal check and then the anti-diagonal check on the current verdict, each annotating its own three cells when its line is complete, and changes nothing else |

## Left out

- Game sessions, matchmaking, the session registry, websocket transport, the scheduled rematch, the HTTP server and the browser user interface are outside this model. They are concurrent or I/O code around the board. The only sequential pieces there are the complementary mark assignment and the check that a turn's mark is the sender's before `makeTurn`, and both rest on `Change` and `MakeTurn` as modelled.
- `Marks.random()` is randomness. The starting player is the constructor's parameter instead.
- JSON serialization of the board and of turns (kotlinx.serialization) is a foreign library and is not modelled.
- `Game.TicTacToe.constructor`: requires the starting player to be `Noughts` or `Crosses`. The source accepts `EMPTY` too, but every caller passes `Marks.random()`, which never yields it. On a board started with `EMPTY`, a turn marked `EMPTY` would pass the legality check, bump the counter, and then fail in `change()`.
- The grid and the annotation grid are nested mutable lists in the source and are publicly readable, and `winner` and `turnCounter` are public properties with setters. Here all of them are fields that only `MakeTurn` and its helpers assign. Writes made from outside the board (to those lists or through those setters), and aliasing of the rows of the lists, are not modelled; such writes could break the board invariant.
- `turnCounter` is a 32-bit `Int` in the source. It is an unbounded integer here, which makes no difference because the invariant keeps it between 0 and 9.
- `Transpose` is modelled on all inputs, including ragged ones. On any input the model proves that the elements are kept (`TransposeElems`). Where each element ends up is proved only for rectangular input (`TransposeRect`), which is the only kind the board passes it.
