# GridWorks tic-tac-toe core in Dafny

This project models the rules engine of the GridWorks tic-tac-toe game and
proves properties of the model. The engine has the following parts:

- **Board.** A `Grid` of chars of up to 255 x 255 cells. It has a fill
  char that marks an empty cell and remembers the last cell written. It
  has bounds-checked writes, resets and four scans for three equal chars
  in a row, column, diagonal or anti-diagonal. Its text form is one line
  per row, with the cells separated by spaces.
- **Marks and players.** The marks X and O. A `Player` has a name and a
  kind (human or AI), fixed at construction, and a mark assigned later.
- **Turns.** A `TurnManager` holds the (name, player) pairs in turn order,
  the index of the current turn and a 32-bit count of the turns played.
  It deals the marks X, O, X, … in list order (or in a shuffled order) and
  puts the X holders first. It writes the current player's mark on an
  empty cell and judges the board: a win, a draw, or the next player's
  turn.
- **Configuration.** A builder assembles the game configuration: name,
  description, board, maximum player count and players. On `build` it
  checks the player count and creates the turn manager.
- **Match.** `GameLogic` is the match state machine: not started, in
  progress or over, with an outcome of none, win or draw, and a winner.

Modules, one per source component:

- `Base`: bytes, and the `Result`/`Outcome` types that carry the C++
  exceptions and failed assertions as values.
- `Moves`, `Players` and `GameStates`: the enums, the lookup tables and
  the `Player` class.
- `BoardSpec`: the board as a value, `seq<seq<char>>`, with the
  declarative line predicates and the text rendering the grid is proved
  against.
- `GridModel`: the `Grid` class over an `array2<char>`.
- `Turns`: the turn manager, with the pure deal (`Dealt`) and X-first
  partition (`XFirstBy`) that specify `SetupPlayers`.
- `Configuration`: the configuration and its builder.
- `Logic`: the match.
- `Scenarios`: the repository's test cases, replayed on the model.

Some things come from outside the engine and are parameters here:

- The random shuffle of the marks is the `shuffled` parameter of
  `SetupPlayers`, `ResetPlayers`, `ResetGame` and `SetupGame`. It must be a
  permutation of the mark pool.
- The singleton `GameLogic` instance and its static fields are one object
  built over a fixed configuration.

## Model

| member | source | states |
|---|---|---|
| Moves.Value | Source/GridWorks/Player/Moves.h:8-12 | X and O have the underlying values 'X' and 'O'; the value-initialised enum is 0 |
| Moves.MoveTypeStringToEnum | Source/GridWorks/Player/Moves.cpp:5-9 | "X" reads as X and "O" as O; every other string is a missing key of the map and reads as the value-initialised enum, Unassigned |
| Moves.MoveTypeEnumToString | Source/GridWorks/Player/Moves.cpp:11-15 | a mark renders as the one-char string of its char; Unassigned, a missing key, renders as "" and is the only value that does |
| Moves.MoveTypeCharToEnum | Source/GridWorks/Player/Moves.cpp:17-21 | 'X' and 'O' read as the mark whose enum value they are; every other char is a missing key and reads as Unassigned |
| Moves.MoveTypeEnumToChar | Source/GridWorks/Player/Moves.cpp:23-27 | the char of a mark equals the mark's enum value; Unassigned, a missing key, gives '\0' |
| Moves.CharRoundTrip | Source/GridWorks/Player/Moves.cpp:17-27 | char lookup inverts char rendering for X and O; any other char maps to the unassigned value 0 |
| Moves.StringRoundTrip | Source/GridWorks/Player/Moves.cpp:5-15 | string lookup inverts string rendering; the strings are exactly "X" and "O"; any other string maps to the unassigned value |
| Moves.MarksDistinct | Source/GridWorks/Player/Moves.cpp:23-27 | distinct marks render to distinct chars, and a real mark never renders to '\0' |
| Players.PlayerTypeValue | Source/GridWorks/Player/Player.h:13-17 | Human is 0 and AI is 1 |
| Players.PlayerTypeStringToEnum | Source/GridWorks/Player/Player.cpp:7-11 | the result is AI exactly for "AI"; every other string, "Human" or a missing key, reads as Human (value 0) |
| Players.PlayerTypeEnumToString | Source/GridWorks/Player/Player.cpp:13-17 | Human renders as "Human" and AI as "AI", and only they do |
| Players.PlayerTypeRoundTrip | Source/GridWorks/Player/Player.cpp:7-17 | the two tables are mutually inverse over "Human" and "AI"; an unknown string reads as Human |
| Players.Player.constructor | Source/GridWorks/Player/Player.cpp:21-23 | name and kind are as given; the mark is not yet assigned |
| Players.Player.Generic | Source/GridWorks/Player/Player.h:31 | the default arguments "GenericName" and Human |
| Players.Player.GetPlayerName | Source/GridWorks/Player/Player.cpp:30-33 | the name given at construction, which nothing changes |
| Players.Player.GetPlayerType | Source/GridWorks/Player/Player.cpp:35-38 | the kind given at construction, which nothing changes |
| Players.Player.GetPlayerMoveType | Source/GridWorks/Player/Player.cpp:40-43 | the mark last set, Unassigned before the first setup |
| Players.Player.SetPlayerMoveType | Source/GridWorks/Player/Player.cpp:45-48 | the mark read back afterwards is the one set |
| BoardSpec.Filled | Source/GridWorks/Grid/Grid.cpp:13-20 | a board of the given shape whose every cell holds the fill char |
| BoardSpec.Write | Source/GridWorks/Grid/Grid.cpp:88 | the written cell holds the new char, every other cell is unchanged, and the shape is kept |
| BoardSpec.ThreeByThreeLines | Source/GridWorks/Grid/Grid.cpp:156-246 | on a 3 x 3 board the four scans together find a line exactly when one of the eight rows, columns or diagonals holds the char (both directions) |
| BoardSpec.Center | Source/GridWorks/Grid/Grid.cpp:264-271 | on a side n >= 1, the centre index is (n - 1) / 2, within one of the middle from both ends; a side of 0 wraps to 255 |
| BoardSpec.RowTextLayout | Source/GridWorks/Grid/Grid.h:85-92 | a row of n cells prints as 2n - 1 chars, cell k at position 2k and a space at each odd position |
| BoardSpec.RowsTextAt | Source/GridWorks/Grid/Grid.h:83-96 | in the rows text, cell (r, c) sits at offset r(2 cols) + 2c, followed by a space inside a row or a newline after every row but the last |
| BoardSpec.RenderLayout | Source/GridWorks/Grid/Grid.h:81-96 | the text is a newline followed by the rows; its length is rows(2 cols), and every cell, space and newline is at its place |
| BoardSpec.RenderAt | Source/GridWorks/Grid/Grid.h:81-96 | the text position of cell (r, c) and of the separator after it |
| GridModel.Grid.constructor | Source/GridWorks/Grid/Grid.cpp:8-21 | the board has the given size, every cell holds the initial char, which becomes the empty char, and the last changed cell is (0, 0) |
| GridModel.Grid.GetRows | Source/GridWorks/Grid/Grid.cpp:35-38 | on a well-formed grid, the number of rows of the board, below 256 |
| GridModel.Grid.GetCols | Source/GridWorks/Grid/Grid.cpp:45-48 | on a well-formed grid, the length of every row of the board, below 256 |
| GridModel.Grid.GetCharAt | Source/GridWorks/Grid/Grid.cpp:75-78 | the char stored at an in-bounds cell |
| GridModel.Grid.SetCharAt | Source/GridWorks/Grid/Grid.cpp:80-89 | in bounds: exactly that cell is written and becomes the last changed cell; out of bounds: out_of_range("Index out of bounds") and nothing changes |
| GridModel.Grid.GetLastChangedChar | Source/GridWorks/Grid/Grid.cpp:91-94 | the last changed cell is (0, 0) or on the board |
| GridModel.Grid.RowAt | Source/GridWorks/Grid/Grid.cpp:98-105 | the row at an index in [0, rows), otherwise out_of_range |
| GridModel.Grid.ResetGrid | Source/GridWorks/Grid/Grid.cpp:113-121 | every cell holds the empty char, the size and empty char are kept, and the last changed cell is (0, 0) |
| GridModel.Grid.ResetGridWithNewSize | Source/GridWorks/Grid/Grid.cpp:123-145 | a fresh board of the new size filled with the new char, which becomes the empty char |
| GridModel.Grid.ResetGridWithNewChar | Source/GridWorks/Grid/Grid.cpp:147-151 | the new char becomes the empty char and fills every cell |
| GridModel.Grid.CheckForRecurringCharsInRow | Source/GridWorks/Grid/Grid.cpp:156-175 | true exactly when some row has three consecutive cells holding the char |
| GridModel.Grid.CheckForRecurringCharsInCol | Source/GridWorks/Grid/Grid.cpp:177-196 | true exactly when some column has three consecutive cells holding the char |
| GridModel.Grid.CheckForRecurringCharsInDiagonal | Source/GridWorks/Grid/Grid.cpp:198-221 | true exactly when three consecutive cells down-right of some cell hold the char |
| GridModel.Grid.CheckForRecurringCharsInAntiDiagonal | Source/GridWorks/Grid/Grid.cpp:223-246 | true exactly when three consecutive cells down-left of some cell hold the char |
| GridModel.Grid.GetCenterMostCoords | Source/GridWorks/Grid/Grid.cpp:261-274 | on a non-empty board, the in-bounds cell ((rows - 1) / 2, (cols - 1) / 2) |
| GridModel.Grid.GetCharCenterMostElement | Source/GridWorks/Grid/Grid.cpp:248-259 | the char at that centre cell |
| GridModel.Grid.Format | Source/GridWorks/Grid/Grid.h:76-100 | the formatter's text is the board's rendering |
| Turns.Dealt | Source/GridWorks/GameLogic/TurnManager.cpp:150-153 | one mark per pair; the last occurrence of a player at index i gets pool[i mod pool size], and two pairs sharing a player hold the same mark |
| Turns.DealtAlternates | Source/GridWorks/GameLogic/TurnManager.cpp:150-153 | with distinct players and a pool of two, the marks alternate pool[0], pool[1], … |
| Turns.AssignMarks | Source/GridWorks/GameLogic/TurnManager.cpp:150-153 | after the loop every player holds the mark `Dealt` gives it |
| Turns.XFirstByPermutes | Source/GridWorks/GameLogic/TurnManager.cpp:155-159 | the X-first reordering is a permutation of the pairs |
| Turns.XFirstByOrdered | Source/GridWorks/GameLogic/TurnManager.cpp:155-159 | each reordered entry comes from the input with its mark, and the X holders come exactly before the rest |
| Turns.XFirstOfTwo | Source/GridWorks/GameLogic/TurnManager.cpp:155-159 | with two players holding X and O, the X holder comes first |
| Turns.TurnAfter | Source/GridWorks/GameLogic/TurnManager.h:36-41 | k increments from a valid turn give a valid turn |
| Turns.TurnAfterWithinRound | Source/GridWorks/GameLogic/TurnManager.h:38 | within one round the turn index counts up and wraps once past the last player |
| Turns.FullRound | Source/GridWorks/GameLogic/TurnManager.h:38 | n increments with n players come back to the same player |
| Turns.TurnAfterPeriodic | Source/GridWorks/GameLogic/TurnManager.h:38 | the turn sequence has period n |
| Turns.TurnManager.constructor | Source/GridWorks/GameLogic/TurnManager.cpp:17-20 | the pairs in the given order, both counters 0 |
| Turns.TurnManager.CopyOf | Source/GridWorks/GameLogic/TurnManager.h:45 | a copy with the same pairs and counters |
| Turns.TurnManager.Increment | Source/GridWorks/GameLogic/TurnManager.h:36-41 | the next player's turn, and the turn count incremented modulo 2^32 |
| Turns.TurnManager.PostIncrement | Source/GridWorks/GameLogic/TurnManager.h:43-48 | the same step, returning a copy of the state before it |
| Turns.TurnManager.GetCurrentPlayer | Source/GridWorks/GameLogic/TurnManager.cpp:32-35 | the current pair is one of the pairs |
| Turns.TurnManager.GetCurrentTurn | Source/GridWorks/GameLogic/TurnManager.cpp:37-40 | the current turn indexes the pairs |
| Turns.TurnManager.GetPlayerNames | Source/GridWorks/GameLogic/TurnManager.cpp:42-50 | the names of the pairs, in turn order |
| Turns.TurnManager.GetPlayerPtrs | Source/GridWorks/GameLogic/TurnManager.cpp:52-60 | the players of the pairs, in turn order |
| Turns.TurnManager.GetPlayerPair | Source/GridWorks/GameLogic/TurnManager.cpp:62-72 | the pair at an index below the count, otherwise out_of_range("Index out of range in GetPlayerPair") |
| Turns.TurnManager.IsWinningCondition | Source/GridWorks/GameLogic/TurnManager.cpp:80-85 | true exactly when the char at the given cell has a line |
| Turns.TurnManager.IsWinningConditionFor | Source/GridWorks/GameLogic/TurnManager.cpp:87-91 | true exactly when the given char has a line |
| Turns.TurnManager.IsDrawCondition | Source/GridWorks/GameLogic/TurnManager.cpp:93-113 | true exactly when no cell is empty and the char at the last changed cell has no line |
| Turns.TurnManager.Reset | Source/GridWorks/GameLogic/TurnManager.cpp:117-121 | both counters 0; the pairs stay |
| Turns.TurnManager.SetupPlayers | Source/GridWorks/GameLogic/TurnManager.cpp:123-161 | each player holds its dealt mark, the pairs become the X-first reordering, a permutation of the old pairs, and the counters stay |
| Turns.TurnManager.MakeMove | Source/GridWorks/GameLogic/TurnManager.cpp:172-188 | moves exactly when the cell is empty; a move writes the current player's mark there and records the cell; a refusal changes nothing |
| Turns.TurnManager.CheckGameOverState | Source/GridWorks/GameLogic/TurnManager.cpp:190-209 | Win when the char at the cell has a line; otherwise Draw when the board is full and the last changed char has no line; otherwise None and the turn advances |
| Turns.TurnManager.SwapPlayerPositions | Source/GridWorks/GameLogic/TurnManager.cpp:211-221 | with exactly two pairs they swap; otherwise runtime_error and no change |
| Configuration.GameConfiguration.constructor | Source/GridWorks/GameLogic/GameConfiguration.h:12-21 | empty strings, no board, no players, no turn manager, maximum 0 |
| Configuration.GameConfiguration.CopyOf | Source/GridWorks/GameLogic/GameConfiguration.cpp:56 | a shallow copy sharing board, players and turn manager |
| Configuration.GameConfigurationBuilder.constructor | Source/GridWorks/GameLogic/GameConfiguration.h:39-42 | a builder over a default configuration |
| Configuration.GameConfigurationBuilder.SetGameName | Source/GridWorks/GameLogic/GameConfiguration.cpp:7-11 | sets the name only and returns the same builder |
| Configuration.GameConfigurationBuilder.SetGameDescription | Source/GridWorks/GameLogic/GameConfiguration.cpp:13-17 | sets the description only and returns the same builder |
| Configuration.GameConfigurationBuilder.SetGrid | Source/GridWorks/GameLogic/GameConfiguration.cpp:19-23 | installs a fresh board of the given size and fill char and returns the same builder |
| Configuration.GameConfigurationBuilder.SetMaxPlayers | Source/GridWorks/GameLogic/GameConfiguration.cpp:25-29 | sets the maximum only and returns the same builder |
| Configuration.GameConfigurationBuilder.AddPlayer | Source/GridWorks/GameLogic/GameConfiguration.cpp:31-35 | appends the player and returns the same builder |
| Configuration.GameConfigurationBuilder.Build | Source/GridWorks/GameLogic/GameConfiguration.cpp:37-57 | fails on one player or none, or on more than the maximum; otherwise a fresh turn manager over (name, player) pairs in insertion order and a fresh copy of the configuration |
| Logic.GameLogic.constructor | Source/GridWorks/GameLogic/GameLogic.cpp:13-16 | not started, no outcome, no winner, randomised turn order |
| Logic.GameLogic.GetGameName | Source/GridWorks/GameLogic/GameLogic.cpp:73-78 | the configured name when it is non-empty; the empty name fails the assertion "Name not initialized." |
| Logic.GameLogic.SetRandomizeTurnOrder | Source/GridWorks/GameLogic/GameLogic.cpp:112-115 | sets the flag only |
| Logic.GameLogic.ResetPlayers | Source/GridWorks/GameLogic/GameLogic.cpp:136-148 | the marks X, O dealt in turn order (or shuffled), X holders first; board, counters and state untouched |
| Logic.GameLogic.ResetGame | Source/GridWorks/GameLogic/GameLogic.cpp:182-203 | not started, no outcome, no winner, an empty board, both counters 0 and the marks dealt anew |
| Logic.GameLogic.SetupGame | Source/GridWorks/GameLogic/GameLogic.cpp:175-180 | the same state as ResetGame |
| Logic.GameLogic.StartGame | Source/GridWorks/GameLogic/GameLogic.cpp:205-218 | in progress, with outcome and winner untouched; state and outcome stay consistent exactly when there was no outcome |
| Logic.GameLogic.MakeMove | Source/GridWorks/GameLogic/GameLogic.cpp:220-254 | refused with runtime_error("Invalid move.") and no effect unless in progress and the cell is empty; otherwise the mark is written, the cell recorded as last changed, and the outcome is Win iff a line, Draw iff full without one, the winner being the mover; the turn and the total turn count (mod 2^32) advance only while the match goes on |
| Logic.GameLogic.MakeMoveAsWritten | Source/GridWorks/GameLogic/GameLogic.cpp:224 | refused under the same conditions, yet an empty cell is written and recorded as last changed whatever the state; an occupied cell leaves board, last changed cell and turn counters alone; an accepted move is judged exactly as in the corrected method |
| Logic.GameLogic.Judge | Source/GridWorks/GameLogic/GameLogic.cpp:227-247 | the outcome switch: None keeps the match going and advances the turn; Win and Draw end it, a win naming the current player; the turn and the total advance only on None |
| Logic.GameLogic.SwapPlayerPositions | Source/GridWorks/GameLogic/GameLogic.cpp:256-263 | the first two configured players swap; the turn manager's pairs swap exactly when there are two, otherwise runtime_error; the board, the name, the description, the maximum and both turn counters are unchanged |
| Scenarios.StarBoardFormatting | Tests/Core/Grid/GridTesting.cpp:151-157 | a 3 x 3 board of '*' prints as "\n* * *\n* * *\n* * *" |
| Scenarios.InvalidMoveAttempt | Tests/Core/TicTacToeLogic/TicTacToeLogicTesting.cpp:156-160 | a write at (3, 3) of a 3 x 3 board fails with out_of_range |
| Scenarios.FullRowWins | Tests/Core/TicTacToeLogic/TicTacToeLogicTesting.cpp:268-276 | a full row of X on any board with at least three columns is found |
| Scenarios.FullAntiDiagonalWins | Tests/Core/TicTacToeLogic/TicTacToeLogicTesting.cpp:301-308 | an anti-diagonal of O on any board of at least 3 x 3 is found |
| Scenarios.FullGridWithoutWinner | Tests/Core/TicTacToeLogic/TicTacToeLogicTesting.cpp:178-185 | the drawn board has no line for X or O and is a draw |
| Scenarios.DetectWinAfterGridIsFull | Tests/Core/TicTacToeLogic/TicTacToeLogicTesting.cpp:162-176 | a full board won on its last move is a win and not a draw |
| Scenarios.TestConfiguration | Tests/Core/GameLogic/GameLogicTesting.cpp:28-35 | the builder chain yields a 3 x 3 board and pairs for Player1 and Player2 in that order |
| Scenarios.Fixture | Tests/Core/GameLogic/GameLogicTesting.cpp:23-45 | with the turn order not randomised, Player1 holds X and moves first, Player2 holds O |
| Scenarios.TopRowGame | Tests/Core/GameLogic/GameLogicTesting.cpp:54-65 | the boards of the top-row game: no line before the fifth move, a line after it, never full |
| Scenarios.WinCondition | Tests/Core/GameLogic/GameLogicTesting.cpp:54-65 | after the five moves the match is over, won, and the winner is Player1, who holds X |
| Scenarios.OverwriteMoveAttempt | Tests/Core/GameLogic/GameLogicTesting.cpp:67-71 | the second move onto the same cell is refused with "Invalid move." |
| Scenarios.MoveBeforeStart | Source/GridWorks/GameLogic/GameLogic.cpp:224 | before the start the move is refused either way, but as written X is left on the board, while as intended the cell stays empty |

## Left out

- Logging (`CLI_TRACE`, `CLI_INFO` and the others), `PrintPlayerMoves`,
  `PrintPlayersTurnOrder` and `Grid::GetGridInfo`: they only produce log
  text.
- The `GameLogic` singleton: `Initialize`, `GetInstance`, `DeleteInstance`,
  `CheckInit`, the mutex and `SetGameConfiguration`. The model is one
  `GameLogic` object whose configuration is fixed when it is built, so
  `CheckInit` always succeeds.
- Plain field access: `Grid::GetGrid`/`SetGrid`, `SetRows`/`SetCols`,
  `GetDefaultChar`/`SetDefaultChar`, `TurnManager::GetPlayerPairs`,
  `GameLogic::GetPlayers`, `GetGameState`, `SetGameState`,
  `GetGameOverType` and `GetWinner`. They are direct reads and writes of
  the modelled fields. `GameLogic::GetGrid` is one too once its
  `CLI_ASSERT` that a board exists is accounted for, and that assertion
  always holds under the model's `Valid()`. `SetRows`/`SetCols` would let the
  stored size disagree with the buffer, which the model's board invariant
  rules out.
- The `Paused` state is declared but never entered by the engine.
- Memory management: the destructors, the leaked previous buffers, and
  the `TurnManager` destructor that nulls each pointer before deleting it.
- Turns.TurnManager.SetupPlayers: the random shuffle is the `shuffled`
  parameter. The `gameConfiguration` argument is not used and is not
  modelled.
- Turns.TurnManager.SetupPlayers: the source sorts with `std::stable_sort`
  and the comparator "a holds X". That is not a strict weak ordering (it
  answers true for two X holders), so the C++ result is not defined by the
  standard. The model uses the evident intent, a stable partition of the
  X holders before the rest (`XFirstBy`).
- Turns.TurnManager.SetupPlayers: the `CLI_ASSERT` that there are more
  than one player is a precondition. The configuration builder already
  refuses fewer than two players.
- GridModel.Grid.GetCharAt: the source reads outside the board with no
  check (undefined behaviour), so the model requires an in-bounds cell.
  For the same reason `TurnManager::MakeMove` and `GameLogic::MakeMove`
  require an in-bounds cell. In the source the unchecked read comes before
  `SetCharAt`'s bounds check.
- GridModel.Grid.RowAt: returns a copy of the row. Writes through the
  returned row, which the source's `operator[]` allows and which bypass
  `SetCharAt` and the last changed cell, are not modelled.
- GridModel.Grid.GetCharCenterMostElement: requires a board with at least
  one row and one column. On an empty board the source computes the centre
  coordinate 255 (0 / 2 = 0, decremented as an `unsigned char` because 0 is
  even) and reads that cell unchecked, which is undefined behaviour.
- Turns.TurnManager.IsDrawCondition: the source reads cell (0, 0) of an
  empty board, so the model requires at least one row and one column.
- Configuration.GameConfigurationBuilder.Build: a missing board is
  dereferenced for the log line, so the model requires a board.
- Logic.GameLogic.ResetGame: the `CLI_ASSERT`s that a board and a turn
  manager exist are part of the `Valid` precondition.
- Players hold a mark that the C++ constructor leaves uninitialised. The
  model starts it at `Unassigned`.

## Findings

| source | as written | input that shows it | evidently intended | confidence | as-written member | corrected member |
|---|---|---|---|---|---|---|
| Source/GridWorks/GameLogic/GameLogic.cpp:224 | `turnManager->MakeMove(grid, row, col)` runs first and writes the mark on an empty cell; only then is `m_gameState == InProgress` tested, and the `runtime_error("Invalid move.")` leaves the mark on the board | the test fixture before `StartGame` (state NotStarted), `MakeMove(0, 0)`: refused, yet cell (0, 0) holds 'X' (`Scenarios.MoveBeforeStart`); likewise any move onto an empty cell after the match is over | test the state first, so a refused move changes nothing | medium, not executed | Logic.GameLogic.MakeMoveAsWritten | Logic.GameLogic.MakeMove |
