/** The match configuration and its builder
    (GameLogic/GameConfiguration.h, GameLogic/GameConfiguration.cpp). */
module Configuration {
  import opened Base
  import opened Players
  import opened BoardSpec
  import opened GridModel
  import opened Turns

  const LackOfPlayersMessage: string := "TurnManager cannot be initialized due to lack of players."
  const TooManyPlayersMessage: string := "Player amount exceeds max player amount."

  class GameConfiguration {
    var gameName: string
    var gameDescription: string
    var grid: Grid?
    var maxPlayers: nat
    var players: seq<Player>
    var turnManager: TurnManager?

    /** The member initialisers: no grid, no players, no turn manager. */
    constructor ()
      ensures gameName == "" && gameDescription == "" && grid == null
      ensures maxPlayers == 0 && players == [] && turnManager == null
    {
      gameName := "";
      gameDescription := "";
      grid := null;
      maxPlayers := 0;
      players := [];
      turnManager := null;
    }

    /** The implicit copy constructor: a shallow copy that shares the grid,
        the players and the turn manager. */
    constructor CopyOf(other: GameConfiguration)
      ensures gameName == other.gameName && gameDescription == other.gameDescription
      ensures grid == other.grid && maxPlayers == other.maxPlayers
      ensures players == other.players && turnManager == other.turnManager
    {
      gameName := other.gameName;
      gameDescription := other.gameDescription;
      grid := other.grid;
      maxPlayers := other.maxPlayers;
      players := other.players;
      turnManager := other.turnManager;
    }
  }

  /** The (name, player) pairs `build` hands to the turn manager. */
  predicate PairsOf(ps: seq<Player>, pairs: seq<PlayerNameAndPtr>)
  {
    |pairs| == |ps| && forall i :: 0 <= i < |ps| ==> pairs[i] == PlayerNameAndPtr(ps[i].GetPlayerName(), ps[i])
  }

  class GameConfigurationBuilder {
    /** The configuration under construction, held by value in the source. */
    const config: GameConfiguration

    constructor ()
      ensures fresh(config)
      ensures config.gameName == "" && config.gameDescription == "" && config.grid == null
      ensures config.maxPlayers == 0 && config.players == [] && config.turnManager == null
    {
      config := new GameConfiguration();
    }

    method SetGameName(gameName: string) returns (b: GameConfigurationBuilder)
      modifies config
      ensures b == this && config.gameName == gameName
      ensures config.gameDescription == old(config.gameDescription) && config.grid == old(config.grid)
      ensures config.maxPlayers == old(config.maxPlayers) && config.players == old(config.players)
      ensures config.turnManager == old(config.turnManager)
    {
      config.gameName := gameName;
      return this;
    }

    method SetGameDescription(gameDescription: string) returns (b: GameConfigurationBuilder)
      modifies config
      ensures b == this && config.gameDescription == gameDescription
      ensures config.gameName == old(config.gameName) && config.grid == old(config.grid)
      ensures config.maxPlayers == old(config.maxPlayers) && config.players == old(config.players)
      ensures config.turnManager == old(config.turnManager)
    {
      config.gameDescription := gameDescription;
      return this;
    }

    /** Installs a new board of the given size and fill char ('.' by default). */
    method SetGrid(rows: Byte, cols: Byte, initialChar: char := DefaultFillChar) returns (b: GameConfigurationBuilder)
      modifies config
      ensures b == this && config.grid != null && fresh(config.grid) && fresh(config.grid.cells)
      ensures config.grid.Valid() && config.grid.GetRows() == rows && config.grid.GetCols() == cols
      ensures config.grid.defaultChar == initialChar && config.grid.Contents == Filled(rows, cols, initialChar)
      ensures config.gameName == old(config.gameName) && config.gameDescription == old(config.gameDescription)
      ensures config.maxPlayers == old(config.maxPlayers) && config.players == old(config.players)
      ensures config.turnManager == old(config.turnManager)
    {
      config.grid := new Grid(rows, cols, initialChar);
      return this;
    }

    method SetMaxPlayers(maxPlayers: nat) returns (b: GameConfigurationBuilder)
      modifies config
      ensures b == this && config.maxPlayers == maxPlayers
      ensures config.gameName == old(config.gameName) && config.gameDescription == old(config.gameDescription)
      ensures config.grid == old(config.grid) && config.players == old(config.players)
      ensures config.turnManager == old(config.turnManager)
    {
      config.maxPlayers := maxPlayers;
      return this;
    }

    /** Appends, so the players keep their insertion order. */
    method AddPlayer(player: Player) returns (b: GameConfigurationBuilder)
      modifies config
      ensures b == this && config.players == old(config.players) + [player]
      ensures config.gameName == old(config.gameName) && config.gameDescription == old(config.gameDescription)
      ensures config.grid == old(config.grid) && config.maxPlayers == old(config.maxPlayers)
      ensures config.turnManager == old(config.turnManager)
    {
      config.players := config.players + [player];
      return this;
    }

    /** Checks that there are at least two players and no more than the
        maximum, then gives the configuration a turn manager over the
        players in insertion order and returns a copy of it. */
    method Build() returns (r: Result<GameConfiguration>)
      requires config.grid != null
      modifies config
      ensures config.gameName == old(config.gameName) && config.gameDescription == old(config.gameDescription)
      ensures config.grid == old(config.grid) && config.maxPlayers == old(config.maxPlayers)
      ensures config.players == old(config.players)
      ensures |config.players| <= 1 ==> r == Err(AssertionFailed(LackOfPlayersMessage))
      ensures 1 < |config.players| && |config.players| > config.maxPlayers ==> r == Err(AssertionFailed(TooManyPlayersMessage))
      ensures r.Err? ==> config.turnManager == old(config.turnManager)
      ensures r.Ok? <==> 1 < |config.players| <= config.maxPlayers
      ensures r.Ok? ==> fresh(r.value) && r.value != config
      ensures r.Ok? ==> config.turnManager != null && fresh(config.turnManager)
      ensures r.Ok? ==> config.turnManager.Valid() && PairsOf(config.players, config.turnManager.players)
      ensures r.Ok? ==> config.turnManager.currentTurn == 0 && config.turnManager.totalTurns == 0
      ensures r.Ok? ==> r.value.gameName == config.gameName && r.value.gameDescription == config.gameDescription
      ensures r.Ok? ==> r.value.grid == config.grid && r.value.maxPlayers == config.maxPlayers
      ensures r.Ok? ==> r.value.players == config.players && r.value.turnManager == config.turnManager
    {
      if |config.players| <= 1 {
        return Err(AssertionFailed(LackOfPlayersMessage));
      }
      if |config.players| > config.maxPlayers {
        return Err(AssertionFailed(TooManyPlayersMessage));
      }
      var playerPairs: seq<PlayerNameAndPtr> := [];
      for i := 0 to |config.players|
        invariant PairsOf(config.players[..i], playerPairs)
      {
        var player := config.players[i];
        playerPairs := playerPairs + [PlayerNameAndPtr(player.GetPlayerName(), player)];
      }
      assert config.players[..|config.players|] == config.players;
      config.turnManager := new TurnManager(playerPairs);
      var copy := new GameConfiguration.CopyOf(config);
      return Ok(copy);
    }
  }
}
