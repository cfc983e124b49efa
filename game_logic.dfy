/** The match state machine (GameLogic/GameLogic.cpp): the state, the
    outcome and the winner, driving the board and the turn manager of a
    built configuration. */
module Logic {
  import opened Base
  import opened Moves
  import opened Players
  import opened BoardSpec
  import opened GridModel
  import opened GameStates
  import opened Turns
  import opened Configuration

  const InvalidMoveMessage: string := "Invalid move."

  const NameNotInitializedMessage: string := "Name not initialized."

  /** The marks `ResetPlayers` deals out, in this order. */
  const MarkPool: seq<MoveType> := [X, O]

  class GameLogic {
    const config: GameConfiguration
    var gameState: GameState
    var gameOverType: GameOverType
    var winner: Player?
    var randomizeTurnOrder: bool

    /** The board's cell buffer, when there is a board. */
    function Cells(): set<object>
      reads this, config, config.grid
    {
      if config.grid == null then {} else {config.grid.cells}
    }

    /** A built configuration: a board and a turn manager over at least two
        players. */
    ghost predicate Valid()
      reads this, config, config.grid, config.turnManager, Cells()
    {
      && config.grid != null && config.turnManager != null
      && config.grid.Valid() && config.turnManager.Valid()
      && |config.turnManager.players| >= 2 && |config.players| >= 2
    }

    /** An outcome other than None only once the match is over, and a
        winner exactly when the outcome is a win. */
    ghost predicate Consistent()
      reads this
    {
      && (gameOverType != None ==> gameState == GameOver)
      && (winner != null <==> gameOverType == Win)
    }

    /** The initial values of the static fields. */
    constructor (configuration: GameConfiguration)
      requires configuration.grid != null && configuration.turnManager != null
      requires configuration.grid.Valid() && configuration.turnManager.Valid()
      requires |configuration.turnManager.players| >= 2 && |configuration.players| >= 2
      ensures config == configuration && Valid() && Consistent()
      ensures gameState == NotStarted && gameOverType == None && winner == null && randomizeTurnOrder
    {
      config := configuration;
      gameState := NotStarted;
      gameOverType := None;
      winner := null;
      randomizeTurnOrder := true;
    }

    /** The configured name; its `CLI_ASSERT` fails on the empty name. */
    function GetGameName(): (r: Result<string>)
      reads this, config
      ensures r.Ok? <==> config.gameName != ""
      ensures r.Ok? ==> r.value == config.gameName
      ensures r.Err? ==> r.failure == AssertionFailed(NameNotInitializedMessage)
    {
      if config.gameName == "" then Err(AssertionFailed(NameNotInitializedMessage))
      else Ok(config.gameName)
    }

    method SetRandomizeTurnOrder(randomize: bool)
      modifies this
      ensures randomizeTurnOrder == randomize
      ensures gameState == old(gameState) && gameOverType == old(gameOverType) && winner == old(winner)
    {
      randomizeTurnOrder := randomize;
    }

    /** Deals the marks X, O, X, ... in list order (or in the order of the
        shuffle `shuffled` when the turn order is randomised) and puts the
        X holders first. */
    method ResetPlayers(shuffled: seq<MoveType>)
      requires Valid()
      requires randomizeTurnOrder ==> |shuffled| == |MarkPool| && multiset(shuffled) == multiset(MarkPool)
      modifies config.turnManager, Ptrs(config.turnManager.players)
      ensures Valid()
      ensures gameState == old(gameState) && gameOverType == old(gameOverType) && winner == old(winner)
      ensures randomizeTurnOrder == old(randomizeTurnOrder)
      ensures config.grid.Contents == old(config.grid.Contents) && config.grid.lastChanged == old(config.grid.lastChanged)
      ensures config.turnManager.currentTurn == old(config.turnManager.currentTurn)
      ensures config.turnManager.totalTurns == old(config.turnManager.totalTurns)
      ensures var pool := if randomizeTurnOrder then shuffled else MarkPool;
        var ps := old(config.turnManager.players);
        && (forall i :: 0 <= i < |ps| ==> ps[i].ptr.moveType == Dealt(ps, pool)[i])
        && config.turnManager.players == XFirstBy(ps, Dealt(ps, pool))
    {
      config.turnManager.SetupPlayers(MarkPool, randomizeTurnOrder, shuffled);
    }

    /** Back to a fresh match: no state, no outcome, no winner, an empty
        board, both turn counters at 0 and the marks dealt anew. */
    method ResetGame(shuffled: seq<MoveType>)
      requires Valid()
      requires randomizeTurnOrder ==> |shuffled| == |MarkPool| && multiset(shuffled) == multiset(MarkPool)
      modifies this, config.grid, config.grid.cells, config.turnManager, Ptrs(config.turnManager.players)
      ensures Valid() && Consistent()
      ensures gameState == NotStarted && gameOverType == None && winner == null
      ensures randomizeTurnOrder == old(randomizeTurnOrder)
      ensures config.grid.cells == old(config.grid.cells) && config.grid.defaultChar == old(config.grid.defaultChar)
      ensures config.grid.Contents == Filled(config.grid.GetRows(), config.grid.GetCols(), config.grid.defaultChar)
      ensures config.grid.lastChanged == (0, 0)
      ensures config.turnManager.currentTurn == 0 && config.turnManager.totalTurns == 0
      ensures var pool := if randomizeTurnOrder then shuffled else MarkPool;
        var ps := old(config.turnManager.players);
        && (forall i :: 0 <= i < |ps| ==> ps[i].ptr.moveType == Dealt(ps, pool)[i])
        && config.turnManager.players == XFirstBy(ps, Dealt(ps, pool))
    {
      gameState := NotStarted;
      gameOverType := None;
      config.grid.ResetGrid();
      config.turnManager.Reset();
      ResetPlayers(shuffled);
      winner := null;
    }

    /** `SetupGame`: the same as `ResetGame`. */
    method SetupGame(shuffled: seq<MoveType>)
      requires Valid()
      requires randomizeTurnOrder ==> |shuffled| == |MarkPool| && multiset(shuffled) == multiset(MarkPool)
      modifies this, config.grid, config.grid.cells, config.turnManager, Ptrs(config.turnManager.players)
      ensures Valid() && Consistent()
      ensures gameState == NotStarted && gameOverType == None && winner == null
      ensures randomizeTurnOrder == old(randomizeTurnOrder)
      ensures config.grid.cells == old(config.grid.cells) && config.grid.defaultChar == old(config.grid.defaultChar)
      ensures config.grid.Contents == Filled(config.grid.GetRows(), config.grid.GetCols(), config.grid.defaultChar)
      ensures config.grid.lastChanged == (0, 0)
      ensures config.turnManager.currentTurn == 0 && config.turnManager.totalTurns == 0
      ensures var pool := if randomizeTurnOrder then shuffled else MarkPool;
        var ps := old(config.turnManager.players);
        && (forall i :: 0 <= i < |ps| ==> ps[i].ptr.moveType == Dealt(ps, pool)[i])
        && config.turnManager.players == XFirstBy(ps, Dealt(ps, pool))
    {
      gameState := NotStarted;
      gameOverType := None;
      ResetGame(shuffled);
    }

    /** Puts the match in progress and touches nothing else, so starting a
        finished match leaves its outcome in place. */
    method StartGame()
      modifies this
      ensures gameState == InProgress
      ensures gameOverType == old(gameOverType) && winner == old(winner)
      ensures randomizeTurnOrder == old(randomizeTurnOrder)
      ensures old(Consistent()) ==> (Consistent() <==> gameOverType == None)
    {
      gameState := InProgress;
    }

    /** The move as intended: refused with "Invalid move." and no effect
        unless the match is in progress and the cell is empty; otherwise the
        current player's mark goes on the board and the outcome is decided,
        a win before a draw. */
    method MakeMove(row: Byte, col: Byte) returns (r: Outcome)
      requires Valid() && Consistent() && config.grid.InBounds(row, col)
      modifies this, config.grid, config.grid.cells, config.turnManager
      ensures Valid() && Consistent()
      ensures randomizeTurnOrder == old(randomizeTurnOrder)
      ensures config.turnManager.players == old(config.turnManager.players)
      ensures config.grid.cells == old(config.grid.cells) && config.grid.defaultChar == old(config.grid.defaultChar)
      ensures r.Failed? <==> old(gameState) != InProgress || old(config.grid.Contents)[row][col] != config.grid.defaultChar
      ensures r.Failed? ==> r.failure == RuntimeError(InvalidMoveMessage)
      ensures r.Failed? ==> && config.grid.Contents == old(config.grid.Contents)
                            && config.grid.lastChanged == old(config.grid.lastChanged)
                            && gameState == old(gameState) && gameOverType == old(gameOverType) && winner == old(winner)
                            && config.turnManager.currentTurn == old(config.turnManager.currentTurn)
                            && config.turnManager.totalTurns == old(config.turnManager.totalTurns)
      ensures r.Done? ==> && config.grid.lastChanged == (row as int, col as int)
                          && config.grid.Contents == Write(old(config.grid.Contents), row, col, MoveTypeEnumToChar(old(config.turnManager.CurrentMark())))
      ensures r.Done? ==> var b := config.grid.Contents;
                          && (gameOverType == Win <==> HasLine(b, b[row][col]))
                          && (gameOverType == Draw <==> !HasLine(b, b[row][col]) && Full(b, config.grid.defaultChar))
      ensures r.Done? && gameOverType == None ==> gameState == InProgress
      ensures r.Done? && gameOverType == None ==>
        config.turnManager.currentTurn == TurnAfter(old(config.turnManager.currentTurn), 1, |config.turnManager.players|)
      ensures r.Done? && gameOverType == None ==>
        config.turnManager.totalTurns == (old(config.turnManager.totalTurns) + 1) % TurnModulus
      ensures r.Done? && gameOverType != None ==>
        config.turnManager.currentTurn == old(config.turnManager.currentTurn)
        && config.turnManager.totalTurns == old(config.turnManager.totalTurns)
      ensures r.Done? && gameOverType == Win ==> gameState == GameOver && winner == old(config.turnManager.GetCurrentPlayer().ptr)
      ensures r.Done? && gameOverType == Draw ==> gameState == GameOver && winner == old(winner)
    {
      if gameState != InProgress {
        return Failed(RuntimeError(InvalidMoveMessage));
      }
      var moved := config.turnManager.MakeMove(config.grid, row, col);
      if !moved {
        return Failed(RuntimeError(InvalidMoveMessage));
      }
      r := Judge(row, col);
    }

    /** `GameLogic::MakeMove` as written: the turn manager's move, which
        writes the cell when it is empty, runs before the state test, so a
        move made while the match is not in progress is refused with the
        mark already on the board. */
    method MakeMoveAsWritten(row: Byte, col: Byte) returns (r: Outcome)
      requires Valid() && Consistent() && config.grid.InBounds(row, col)
      modifies this, config.grid, config.grid.cells, config.turnManager
      ensures Valid() && Consistent()
      ensures config.grid.cells == old(config.grid.cells) && config.grid.defaultChar == old(config.grid.defaultChar)
      ensures r.Failed? <==> old(gameState) != InProgress || old(config.grid.Contents)[row][col] != config.grid.defaultChar
      ensures r.Failed? ==> r.failure == RuntimeError(InvalidMoveMessage)
      ensures randomizeTurnOrder == old(randomizeTurnOrder)
      ensures config.turnManager.players == old(config.turnManager.players)
      ensures r.Failed? ==> && gameState == old(gameState) && gameOverType == old(gameOverType) && winner == old(winner)
                            && config.turnManager.currentTurn == old(config.turnManager.currentTurn)
                            && config.turnManager.totalTurns == old(config.turnManager.totalTurns)
      ensures old(config.grid.Contents)[row][col] != config.grid.defaultChar ==>
        config.grid.Contents == old(config.grid.Contents) && config.grid.lastChanged == old(config.grid.lastChanged)
      ensures old(config.grid.Contents)[row][col] == config.grid.defaultChar ==>
        && config.grid.lastChanged == (row as int, col as int)
        && config.grid.Contents == Write(old(config.grid.Contents), row, col, MoveTypeEnumToChar(old(config.turnManager.CurrentMark())))
      ensures r.Done? ==> var b := config.grid.Contents;
                          && (gameOverType == Win <==> HasLine(b, b[row][col]))
                          && (gameOverType == Draw <==> !HasLine(b, b[row][col]) && Full(b, config.grid.defaultChar))
      ensures r.Done? && gameOverType == None ==> gameState == InProgress
      ensures r.Done? && gameOverType == None ==>
        config.turnManager.currentTurn == TurnAfter(old(config.turnManager.currentTurn), 1, |config.turnManager.players|)
      ensures r.Done? && gameOverType == None ==>
        config.turnManager.totalTurns == (old(config.turnManager.totalTurns) + 1) % TurnModulus
      ensures r.Done? && gameOverType != None ==>
        config.turnManager.currentTurn == old(config.turnManager.currentTurn)
        && config.turnManager.totalTurns == old(config.turnManager.totalTurns)
      ensures r.Done? && gameOverType == Win ==> gameState == GameOver && winner == old(config.turnManager.GetCurrentPlayer().ptr)
      ensures r.Done? && gameOverType == Draw ==> gameState == GameOver && winner == old(winner)
    {
      var moved := config.turnManager.MakeMove(config.grid, row, col);
      if moved && gameState == InProgress {
        r := Judge(row, col);
      } else {
        r := Failed(RuntimeError(InvalidMoveMessage));
      }
    }

    /** The outcome switch of `MakeMove`, once the mark is on the board. */
    method Judge(row: Byte, col: Byte) returns (r: Outcome)
      requires Valid() && Consistent() && gameState == InProgress
      requires config.grid.InBounds(row, col) && config.grid.lastChanged == (row as int, col as int)
      modifies this, config.turnManager
      ensures r == Done && Valid() && Consistent()
      ensures randomizeTurnOrder == old(randomizeTurnOrder)
      ensures config.turnManager.players == old(config.turnManager.players)
      ensures var b := config.grid.Contents;
        && (gameOverType == Win <==> HasLine(b, b[row][col]))
        && (gameOverType == Draw <==> !HasLine(b, b[row][col]) && Full(b, config.grid.defaultChar))
      ensures gameOverType == None ==> gameState == InProgress
      ensures gameOverType == None ==>
        config.turnManager.currentTurn == TurnAfter(old(config.turnManager.currentTurn), 1, |config.turnManager.players|)
      ensures gameOverType == None ==> config.turnManager.totalTurns == (old(config.turnManager.totalTurns) + 1) % TurnModulus
      ensures gameOverType != None ==>
        config.turnManager.currentTurn == old(config.turnManager.currentTurn)
        && config.turnManager.totalTurns == old(config.turnManager.totalTurns)
      ensures gameOverType == Win ==> gameState == GameOver && winner == old(config.turnManager.GetCurrentPlayer().ptr)
      ensures gameOverType == Draw ==> gameState == GameOver && winner == old(winner)
    {
      var outcome := config.turnManager.CheckGameOverState(config.grid, row, col);
      r := Done;
      match outcome
      case None =>
        gameState := InProgress;
      case Win =>
        gameState := GameOver;
        gameOverType := Win;
        winner := config.turnManager.GetCurrentPlayer().ptr;
      case Draw =>
        gameState := GameOver;
        gameOverType := Draw;
    }

    /** Swaps the first two configured players unconditionally, then asks
        the turn manager to swap its pairs, which it refuses unless there are
        exactly two. */
    method SwapPlayerPositions() returns (r: Outcome)
      requires Valid()
      modifies config, config.turnManager
      ensures Valid()
      ensures config.grid == old(config.grid) && config.turnManager == old(config.turnManager)
      ensures config.players == old(config.players)[0 := old(config.players)[1]][1 := old(config.players)[0]]
      ensures r.Done? <==> |old(config.turnManager.players)| == 2
      ensures r.Done? ==> config.turnManager.players == [old(config.turnManager.players)[1], old(config.turnManager.players)[0]]
      ensures r.Failed? ==> r.failure == RuntimeError(SwapMessage) && config.turnManager.players == old(config.turnManager.players)
      ensures config.turnManager.currentTurn == old(config.turnManager.currentTurn)
      ensures config.turnManager.totalTurns == old(config.turnManager.totalTurns)
      ensures config.gameName == old(config.gameName) && config.gameDescription == old(config.gameDescription)
      ensures config.maxPlayers == old(config.maxPlayers)
    {
      var ps := config.players;
      config.players := ps[0 := ps[1]][1 := ps[0]];
      r := config.turnManager.SwapPlayerPositions();
    }
  }
}
