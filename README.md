# Tic-tac-toe game state, verified

A model of the game logic of a browser tic-tac-toe page (`script.js`). The
page keeps its state in a few mutable variables: a flat board of
`boardSize * boardSize` cells holding `""`, `"X"` or `"O"`, the marker of the
player to move, two score counters, the board size and the game mode. Its
event handlers change that state. The model has four parts:

- `lines.dfy`, module `WinLines`: the index arithmetic of win detection.
  It covers the n rows, the n columns and the two diagonals as lists of flat
  indices, in the order the page pushes them. `BuildWinPatterns` is the
  page's loop that builds that list. The lemmas show there are 2n+2
  patterns, each of n indices, all on the board. They also show that the
  formulas `x*(n+1)` and `(x+1)*(n-1)` hit row x, column x and row x,
  column n-1-x.
- `board.dfy`, module `Board`: the cell and player values and the pure tests.
  `Wins` is the `some`/`every` test over the generated patterns, and
  `WinsIffWinningLine` proves it equal to a geometric definition of a win.
  The module also has the full-board test and the list of empty cells the
  computer picks from.
- `game.dfy`, module `Game`: class `TicTacToe`, which holds the page's
  variables as fields. It has one method per handler: the move, the win
  check, the click guard, the computer's move, the game reset, the score
  reset, and the size and mode changes. `MoveApplied` states the effect of
  one move: the one written cell, then exactly one of win, draw or turn
  change.
- `scenarios.dfy`, module `Scenarios`: two games on a 2-by-2 board, played
  through the handlers. In two-player mode the game stalls after X's first
  move. In solo mode X can keep playing after a win, and
  scores the same line a second time.

The model follows the code as written, including behaviour that looks
unintended:

- There is no terminal state: a click is accepted whenever its cell is
  empty and X is to move. After a win or a draw the turn does not change,
  so after X wins the click guard still accepts X's clicks on empty cells
  until the delayed reset runs.
- The guard accepts a click only when X is to move. In two-player mode no
  click of O's is ever played.
- For board size 0 the two diagonal patterns are empty, and `every` on an
  empty list is true, so the win test reports a win on the empty board.
- A win is scored again by every later move of the same player while the
  winning line stays on the board: after X wins, X's next accepted click
  finds the same line complete and adds another point to X's score.

The diagonal formulas are correct for every size n >= 1
(`DiagonalsHitTheirCells`).

## Model

| member | source | states |
|---|---|---|
| `WinLines.Row` | script.js:116 | row i is the indices x + i*n for x < n; `Board.RowPatternIff` shows they are the cells of row i |
| `WinLines.Column` | script.js:120 | column i is the indices x*n + i for x < n; `Board.ColumnPatternIff` shows they are the cells of column i |
| `WinLines.MainDiagonal` | script.js:123 | the indices x*(n+1) for x < n; `WinLines.DiagonalsHitTheirCells` shows they are the cells (x, x) |
| `WinLines.AntiDiagonal` | script.js:124 | the indices (x+1)*(n-1) for x < n; `WinLines.DiagonalsHitTheirCells` shows they are the cells (x, n-1-x) |
| `WinLines.WinPatterns` | script.js:113-124 | the pattern list in push order: n rows, n columns, main diagonal, anti-diagonal; its shape and bounds are `WinLines.WinPatternsWellFormed` |
| `WinLines.Rows` | script.js:115-117 | the first k row patterns, pattern i being row i |
| `WinLines.Columns` | script.js:119-121 | the first k column patterns, pattern i being column i |
| `WinLines.WinPatternAt` | script.js:113-124 | there are 2n+2 patterns; pattern j is row j, column j-n, the main diagonal (j = 2n) or the anti-diagonal (j = 2n+1) |
| `WinLines.CellIndexInRange` | script.js:116 | row r, column c inside an n-by-n board give a flat index in [0, n*n) |
| `WinLines.DiagonalsHitTheirCells` | script.js:123-124 | x*(n+1) is the cell at row x, column x, and (x+1)*(n-1) is the cell at row x, column n-1-x |
| `WinLines.WinPatternsWellFormed` | script.js:113-124 | exactly 2n+2 patterns, each of exactly n indices, every index in [0, n*n) |
| `WinLines.BuildWinPatterns` | script.js:113-124 | the two push loops and the two diagonal pushes build exactly the pattern list |
| `Board.Opponent` | script.js:107 | the turn toggle always yields the other player |
| `Board.LineComplete` | script.js:126 | the inner `every`: each index of the pattern is on the board and holds p's marker |
| `Board.AnyLineComplete` | script.js:126 | the outer `some`: at least one pattern is complete for p |
| `Board.Wins` | script.js:112-127 | the game's win test over the generated patterns; `Board.WinsIffWinningLine` shows it is a whole row, column or diagonal owned by p |
| `Board.IsFull` | script.js:129-131 | no cell is empty; `Board.FullIffNoMoves` shows this is exactly an empty candidate list |
| `Board.RowPatternIff` | script.js:116 | row pattern i is all p's exactly when p owns every cell of row i |
| `Board.ColumnPatternIff` | script.js:120 | column pattern i is all p's exactly when p owns every cell of column i |
| `Board.MainDiagonalPatternIff` | script.js:123 | the main-diagonal pattern is all p's exactly when p owns every cell (x, x) |
| `Board.AntiDiagonalPatternIff` | script.js:124 | the anti-diagonal pattern is all p's exactly when p owns every cell (x, n-1-x) |
| `Board.PatternCompleteIffOwned` | script.js:113-126 | pattern j is complete exactly when p owns the row, column or diagonal it stands for |
| `Board.WinsIffWinningLine` | script.js:112-127 | the win test is true iff p owns a whole row, a whole column or one of the two diagonals |
| `Board.EmptyIndicesFrom` | script.js:134 | the indices from a start position whose cells are empty: all of them, only them, in increasing order |
| `Board.AvailableMoves` | script.js:134 | i is a candidate move iff i is on the board and its cell is empty; candidates increase |
| `Board.FullIffNoMoves` | script.js:129-131 | the board is full (no cell is empty) iff there is no candidate move |
| `Game.TicTacToe.constructor` | script.js:20-25 | start-up state: n*n empty cells, X to move, the saved scores, the chosen size and mode |
| `Game.TicTacToe.CheckWin` | script.js:112-127 | true iff the player to move owns a whole row, column or diagonal |
| `Game.TicTacToe.MakeMove` | script.js:89-110 | writes the mover's marker at i, and no other cell changes; on a win the mover's counter rises by one and the turn stays; on a full board with no win nothing else changes; otherwise the turn flips and the scores stay |
| `Game.TicTacToe.HandleCellClick` | script.js:79-87 | a click is played iff its cell is empty and X is to move, and an ignored click changes nothing; a played click has the effect of X's move; the computer is scheduled iff the mode is solo, the player now to move has no line and the board is not full |
| `Game.TicTacToe.ComputerMove` | script.js:133-137 | with no empty cell nothing changes; otherwise it plays the chosen candidate, a cell that was empty, with the effect of a move by the player to move |
| `Game.TicTacToe.ResetGame` | script.js:139-144 | the board becomes size*size empty cells, X is to move, and the scores, size and mode are kept |
| `Game.TicTacToe.ResetScores` | script.js:58-64 | both counters become 0; board, turn, size and mode are kept |
| `Game.TicTacToe.ChangeBoardSize` | script.js:47-50 | the new size takes effect with a fresh empty board of that size; the scores are kept |
| `Game.TicTacToe.ChangeMode` | script.js:52-56 | the new mode takes effect with a fresh empty board of the same size; the scores are kept |
| `Scenarios.TwoPlayerStallsAfterOpening` | script.js:81-82 | in two-player mode, after X's opening the turn is O's and the next click is ignored |
| `Scenarios.XKeepsPlayingAfterWinning` | script.js:92-102 | in solo mode, after X wins the turn stays with X, X's click on the last empty cell is played, and it is scored as a second win, so X's score becomes 2 |

## Left out

- Rendering is not modelled: building the cell elements, the turn
  indicator, the score texts and their bold styling, the result alert and
  the confirmation dialog. Confirming the dialog is `ResetGame`, and
  cancelling it changes no game state.
- Browser storage is not modelled, nor are the player names and their
  defaults. The saved scores are the constructor's arguments, taken as
  naturals; a negative number in storage is not modelled.
- The 500 ms and 5000 ms timers are not modelled. The delayed computer move
  and the delayed reset are the methods `ComputerMove` and `ResetGame`,
  which the caller invokes. Another event may run in between; the methods
  make no assumption about what came before.
- `Math.random` is replaced by the caller's `choice`, and the move played is
  candidate number `choice mod count`. Every empty cell is candidate
  number k for some k < count.
- Game.TicTacToe.ComputerMove: with no empty cell the page writes a
  non-index property on the board array and then fails on a missing
  element. The model only states that no cell, turn or score changes.
- Game.TicTacToe.HandleCellClick: the page reads the index as a string from
  the element's data. The model takes it as a natural number, and an index
  off the board reads no cell, so the click is ignored.
- Scores are unbounded naturals. The page's floating-point numbers stop
  counting exactly past 2^53; this is not modelled.
- Disabling the second name input in solo mode is presentation and is not
  modelled.
