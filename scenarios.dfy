/** The cases of the repository's test suites (Tests/Core/...), replayed on
    the model: each one's expected results follow from the contracts of the
    operations it calls. */
module Scenarios {
  import opened Base
  import opened Moves
  import opened Players
  import opened BoardSpec
  import opened GridModel
  import opened GameStates
  import opened Turns
  import opened Configuration
  import opened Logic

  // ---------------------------------------------------------------------
  // Grid cases

  /** A 3 x 3 board of '*' is formatted as three rows of "* * *" after a
      leading newline. */
  lemma StarBoardFormatting()
    ensures Render(Filled(3, 3, '*')) == "\n* * *\n* * *\n* * *"
  {
    var b := Filled(3, 3, '*');
    forall r | 0 <= r < 3
      ensures RowText(b[r], 3) == "* * *"
    {
      assert RowText(b[r], 1) == "*";
      assert RowText(b[r], 2) == "* *";
    }
    assert RowsText(b, 1) == "* * *\n";
    assert RowsText(b, 2) == "* * *\n* * *\n";
  }

  /** A write inside a 3 x 3 board is accepted and one at (3, 3) is refused
      with `out_of_range`, leaving the board as it was. */
  method InvalidMoveAttempt() returns (first: Outcome, second: Outcome, cell: char)
    ensures first == Done
    ensures second == Failed(OutOfRange(OutOfBoundsMessage))
    ensures cell == 'X'
  {
    var grid := new Grid(3, 3, '*');
    first := grid.SetCharAt(0, 0, 'X');
    second := grid.SetCharAt(3, 3, 'O');
    cell := grid.GetCharAt(0, 0);
  }

  /** A full row of 'X' on a board of any size with at least three columns
      is a row run, whatever else is on the board. */
  method FullRowWins(rows: Byte, cols: Byte, winRow: Byte) returns (found: bool)
    requires cols >= 3 && winRow < rows
    ensures found
  {
    var grid := new Grid(rows, cols, '.');
    for c := 0 to cols
      invariant grid.Valid() && grid.GetRows() == rows && grid.GetCols() == cols
      invariant fresh(grid) && fresh(grid.cells)
      invariant forall j :: 0 <= j < c ==> grid.Contents[winRow][j] == 'X'
    {
      var r := grid.SetCharAt(winRow, c as Byte, 'X');
    }
    assert RowTriple(grid.Contents, winRow as int, 0, 'X');
    found := grid.CheckForRecurringCharsInRow('X');
  }

  /** 'O' on the anti-diagonal from the top right corner, as far as the
      shorter side allows, is an anti-diagonal run once both sides are at
      least 3. */
  method FullAntiDiagonalWins(rows: Byte, cols: Byte) returns (found: bool)
    requires rows >= 3 && cols >= 3
    ensures found
  {
    var grid := new Grid(rows, cols, '.');
    var n := if rows < cols then rows else cols;
    for i := 0 to n
      invariant grid.Valid() && grid.GetRows() == rows && grid.GetCols() == cols
      invariant fresh(grid) && fresh(grid.cells)
      invariant i >= 1 ==> grid.Contents[0][cols - 1] == 'O'
      invariant i >= 2 ==> grid.Contents[1][cols - 2] == 'O'
      invariant i >= 3 ==> grid.Contents[2][cols - 3] == 'O'
    {
      var r := grid.SetCharAt(i as Byte, (cols - 1 - i) as Byte, 'O');
    }
    assert AntiTriple(grid.Contents, 0, cols - 1, 'O');
    found := grid.CheckForRecurringCharsInAntiDiagonal('O');
  }

  /** X O X / X O X / O X O on a '*' board: no line for either mark, every
      cell filled, so the draw check holds. */
  method FullGridWithoutWinner() returns (xWins: bool, oWins: bool, draw: bool)
    ensures !xWins && !oWins && draw
  {
    var grid := new Grid(3, 3, '*');
    var r := grid.SetCharAt(0, 0, 'X');
    r := grid.SetCharAt(0, 1, 'O');
    r := grid.SetCharAt(0, 2, 'X');
    r := grid.SetCharAt(1, 0, 'X');
    r := grid.SetCharAt(1, 1, 'O');
    r := grid.SetCharAt(1, 2, 'X');
    r := grid.SetCharAt(2, 0, 'O');
    r := grid.SetCharAt(2, 1, 'X');
    r := grid.SetCharAt(2, 2, 'O');
    ThreeByThreeLines(grid.Contents, 'X');
    ThreeByThreeLines(grid.Contents, 'O');
    var tm := new TurnManager([]);
    xWins := tm.IsWinningConditionFor(grid, 'X');
    oWins := tm.IsWinningConditionFor(grid, 'O');
    draw := tm.IsDrawCondition(grid, 0, 0);
  }

  /** A full board whose last move completes the main diagonal is a win
      at that cell and not a draw. */
  method DetectWinAfterGridIsFull() returns (win: bool, draw: bool)
    ensures win && !draw
  {
    var grid := new Grid(3, 3, '*');
    var r := grid.SetCharAt(0, 0, 'X');
    r := grid.SetCharAt(0, 1, 'O');
    r := grid.SetCharAt(0, 2, 'X');
    r := grid.SetCharAt(1, 0, 'O');
    r := grid.SetCharAt(1, 1, 'X');
    r := grid.SetCharAt(1, 2, 'O');
    r := grid.SetCharAt(2, 1, 'X');
    r := grid.SetCharAt(2, 0, 'O');
    r := grid.SetCharAt(2, 2, 'X');
    ThreeByThreeLines(grid.Contents, 'X');
    var tm := new TurnManager([]);
    win := tm.IsWinningCondition(grid, 2, 2);
    draw := tm.IsDrawCondition(grid, 2, 2);
  }

  // ---------------------------------------------------------------------
  // GameLogic cases

  /** The configuration the GameLogic fixture builds: a 3 x 3 board of
      '.', at most two players, "Player1" (human) then "Player2" (AI). */
  method TestConfiguration() returns (config: GameConfiguration, p1: Player, p2: Player)
    ensures fresh(config) && fresh(p1) && fresh(p2) && p1 != p2
    ensures config.grid != null && fresh(config.grid) && fresh(config.grid.cells)
    ensures config.turnManager != null && fresh(config.turnManager)
    ensures config.grid.Valid() && config.turnManager.Valid()
    ensures config.grid.GetRows() == 3 && config.grid.GetCols() == 3 && config.grid.defaultChar == '.'
    ensures config.players == [p1, p2] && p1.name == "Player1" && p2.name == "Player2"
    ensures config.turnManager.players == [PlayerNameAndPtr("Player1", p1), PlayerNameAndPtr("Player2", p2)]
  {
    var builder := new GameConfigurationBuilder();
    var b := builder.SetGameName("TicTacToe");
    b := b.SetGameDescription("TicTacToe Game");
    b := b.SetGrid(3, 3, '.');
    b := b.SetMaxPlayers(2);
    p1 := new Player("Player1", Human);
    b := b.AddPlayer(p1);
    p2 := new Player("Player2", AI);
    b := b.AddPlayer(p2);
    var built := b.Build();
    config := built.value;
    assert PairsOf([p1, p2], config.turnManager.players);
  }

  /** The GameLogic fixture before `StartGame`: the test configuration, the
      turn order not randomised and the match set up. Player1 holds X and
      moves first. */
  method Fixture() returns (g: GameLogic, p1: Player, p2: Player)
    ensures fresh(g) && fresh(g.config) && fresh(p1) && fresh(p2) && p1 != p2
    ensures fresh(g.config.grid) && fresh(g.config.grid.cells) && fresh(g.config.turnManager)
    ensures g.Valid() && g.Consistent() && g.gameState == NotStarted
    ensures g.config.grid.GetRows() == 3 && g.config.grid.GetCols() == 3 && g.config.grid.defaultChar == '.'
    ensures g.config.grid.Contents == Filled(3, 3, '.')
    ensures g.config.players == [p1, p2] && p1.name == "Player1" && p2.name == "Player2"
    ensures g.config.turnManager.players == [PlayerNameAndPtr("Player1", p1), PlayerNameAndPtr("Player2", p2)]
    ensures g.config.turnManager.currentTurn == 0
    ensures p1.moveType == X && p2.moveType == O
  {
    var config;
    config, p1, p2 := TestConfiguration();
    g := new GameLogic(config);
    g.SetRandomizeTurnOrder(false);
    var ps := config.turnManager.players;
    g.SetupGame([]);
    DealtAlternates(ps, MarkPool);
    XFirstOfTwo(ps, Dealt(ps, MarkPool));
  }

  /** The fixture's match in progress with Player1 (X) and Player2 (O)
      taking turns on the 3 x 3 board of '.'. */
  ghost predicate TwoPlayerMatch(g: GameLogic, p1: Player, p2: Player)
    reads g, g.config, g.config.grid, g.config.turnManager, g.Cells(), p1, p2
  {
    && g.Valid() && g.Consistent() && g.gameState == InProgress
    && g.config.grid.GetRows() == 3 && g.config.grid.GetCols() == 3 && g.config.grid.defaultChar == '.'
    && g.config.turnManager.players == [PlayerNameAndPtr("Player1", p1), PlayerNameAndPtr("Player2", p2)]
    && p1.moveType == X && p2.moveType == O
  }

  /** A move of mark `ch` onto an empty cell that neither completes a line
      nor fills the board: it is accepted, the board becomes `next`, the
      match goes on and the turn passes to the other player. */
  method QuietMove(g: GameLogic, p1: Player, p2: Player, row: Byte, col: Byte, ch: char, next: Board) returns (r: Outcome)
    requires TwoPlayerMatch(g, p1, p2) && row < 3 && col < 3
    requires g.config.grid.Contents[row][col] == '.'
    requires MoveTypeEnumToChar(g.config.turnManager.CurrentMark()) == ch
    requires Write(g.config.grid.Contents, row, col, ch) == next
    requires !HasLine(next, ch) && !Full(next, '.')
    modifies g, g.config.grid, g.config.grid.cells, g.config.turnManager
    ensures r == Done && TwoPlayerMatch(g, p1, p2) && g.gameOverType == None
    ensures g.config.grid.cells == old(g.config.grid.cells)
    ensures g.config.grid.Contents == next
    ensures g.config.turnManager.currentTurn == 1 - old(g.config.turnManager.currentTurn)
  {
    r := g.MakeMove(row, col);
  }

  /** The boards of the top-row game after each of its five moves. */
  const TopRowBoards: seq<Board> := [
    [['X', '.', '.'], ['.', '.', '.'], ['.', '.', '.']],
    [['X', '.', '.'], ['O', '.', '.'], ['.', '.', '.']],
    [['X', 'X', '.'], ['O', '.', '.'], ['.', '.', '.']],
    [['X', 'X', '.'], ['O', 'O', '.'], ['.', '.', '.']],
    [['X', 'X', 'X'], ['O', 'O', '.'], ['.', '.', '.']]
  ]

  /** Two 3 x 3 boards with the same cells are the same board. */
  lemma SameCells(a: Board, b: Board)
    requires Shape(a, 3, 3) && Shape(b, 3, 3)
    requires forall i, j :: 0 <= i < 3 && 0 <= j < 3 ==> a[i][j] == b[i][j]
    ensures a == b
  {
    forall i | 0 <= i < 3
      ensures a[i] == b[i]
    {
      assert a[i][0] == b[i][0] && a[i][1] == b[i][1] && a[i][2] == b[i][2];
    }
  }

  /** Each board of the top-row game is the one before with the mover's
      mark written; only the last one has a line, and none is full. */
  lemma TopRowGame()
    ensures Write(Filled(3, 3, '.'), 0, 0, 'X') == TopRowBoards[0]
    ensures Write(TopRowBoards[0], 1, 0, 'O') == TopRowBoards[1]
    ensures Write(TopRowBoards[1], 0, 1, 'X') == TopRowBoards[2]
    ensures Write(TopRowBoards[2], 1, 1, 'O') == TopRowBoards[3]
    ensures Write(TopRowBoards[3], 0, 2, 'X') == TopRowBoards[4]
    ensures !HasLine(TopRowBoards[0], 'X') && !HasLine(TopRowBoards[1], 'O')
    ensures !HasLine(TopRowBoards[2], 'X') && !HasLine(TopRowBoards[3], 'O')
    ensures HasLine(TopRowBoards[4], 'X')
    ensures forall k :: 0 <= k < 5 ==> !Full(TopRowBoards[k], '.')
  {
    SameCells(Write(Filled(3, 3, '.'), 0, 0, 'X'), TopRowBoards[0]);
    SameCells(Write(TopRowBoards[0], 1, 0, 'O'), TopRowBoards[1]);
    SameCells(Write(TopRowBoards[1], 0, 1, 'X'), TopRowBoards[2]);
    SameCells(Write(TopRowBoards[2], 1, 1, 'O'), TopRowBoards[3]);
    SameCells(Write(TopRowBoards[3], 0, 2, 'X'), TopRowBoards[4]);
    ThreeByThreeLines(TopRowBoards[0], 'X');
    ThreeByThreeLines(TopRowBoards[1], 'O');
    ThreeByThreeLines(TopRowBoards[2], 'X');
    ThreeByThreeLines(TopRowBoards[3], 'O');
    ThreeByThreeLines(TopRowBoards[4], 'X');
    forall k | 0 <= k < 5
      ensures !Full(TopRowBoards[k], '.')
    {
      assert TopRowBoards[k][2][2] == '.';
    }
  }

  /** The first round of the top-row game: X at (0, 0), then O at (1, 0). */
  method TopRowFirstRound(g: GameLogic, p1: Player, p2: Player)
    requires TwoPlayerMatch(g, p1, p2) && g.config.turnManager.currentTurn == 0
    requires g.config.grid.Contents == Filled(3, 3, '.')
    modifies g, g.config.grid, g.config.grid.cells, g.config.turnManager
    ensures TwoPlayerMatch(g, p1, p2) && g.config.turnManager.currentTurn == 0
    ensures g.config.grid.Contents == TopRowBoards[1]
    ensures g.config.grid.cells == old(g.config.grid.cells)
  {
    TopRowGame();
    var r := QuietMove(g, p1, p2, 0, 0, 'X', TopRowBoards[0]);
    r := QuietMove(g, p1, p2, 1, 0, 'O', TopRowBoards[1]);
  }

  /** The second round of the top-row game: X at (0, 1), then O at (1, 1). */
  method TopRowSecondRound(g: GameLogic, p1: Player, p2: Player)
    requires TwoPlayerMatch(g, p1, p2) && g.config.turnManager.currentTurn == 0
    requires g.config.grid.Contents == TopRowBoards[1]
    modifies g, g.config.grid, g.config.grid.cells, g.config.turnManager
    ensures TwoPlayerMatch(g, p1, p2) && g.config.turnManager.currentTurn == 0
    ensures g.config.grid.Contents == TopRowBoards[3]
    ensures g.config.grid.cells == old(g.config.grid.cells)
  {
    TopRowGame();
    var r := QuietMove(g, p1, p2, 0, 1, 'X', TopRowBoards[2]);
    r := QuietMove(g, p1, p2, 1, 1, 'O', TopRowBoards[3]);
  }

  /** Player1 takes the top row while Player2 plays the middle row: the
      match is over, won, and Player1 is the winner. */
  method WinCondition() returns (state: GameState, outcome: GameOverType, winner: Player?, first: Player)
    ensures state == GameOver && outcome == Win && winner == first
    ensures first.name == "Player1" && first.moveType == X
  {
    var g, p1, p2 := Fixture();
    g.StartGame();
    TopRowFirstRound(g, p1, p2);
    TopRowSecondRound(g, p1, p2);
    TopRowGame();
    var r := g.MakeMove(0, 2);
    return g.gameState, g.gameOverType, g.winner, p1;
  }

  /** The second player's move onto the first player's cell is refused. */
  method OverwriteMoveAttempt() returns (first: Outcome, second: Outcome)
    ensures first == Done && second == Failed(RuntimeError(InvalidMoveMessage))
  {
    var g, p1, p2 := Fixture();
    g.StartGame();
    first := g.MakeMove(0, 0);
    second := g.MakeMove(0, 0);
  }

  /** A move before `StartGame`: as written it is refused, yet Player1's X
      is left on the board; as intended it is refused and the board stays
      empty. */
  method MoveBeforeStart() returns (asWritten: Outcome, cellAsWritten: char, intended: Outcome, cellIntended: char)
    ensures asWritten == Failed(RuntimeError(InvalidMoveMessage)) && cellAsWritten == 'X'
    ensures intended == Failed(RuntimeError(InvalidMoveMessage)) && cellIntended == '.'
  {
    var g, p1, p2 := Fixture();
    asWritten := g.MakeMoveAsWritten(0, 0);
    cellAsWritten := g.config.grid.GetCharAt(0, 0);
    var h, q1, q2 := Fixture();
    intended := h.MakeMove(0, 0);
    cellIntended := h.config.grid.GetCharAt(0, 0);
  }
}
