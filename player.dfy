/** Players (Player/Player.h, Player/Player.cpp): a name and a kind fixed at
    construction, and a mark that the turn manager assigns on every setup. */
module Players {
  import opened Moves

  datatype PlayerType = Human | AI

  /** The enum's underlying value (Human = 0, AI = 1). */
  function PlayerTypeValue(t: PlayerType): (v: int)
    ensures v == 0 <==> t == Human
    ensures v == 1 <==> t == AI
  {
    match t
    case Human => 0
    case AI => 1
  }

  /** Only "Human" and "AI" are keys of the table; a missing key reads as
      the value-initialised enum 0, `Human`. */
  function PlayerTypeStringToEnum(s: string): (t: PlayerType)
    ensures t == AI <==> s == "AI"
  {
    if s == "AI" then AI else Human
  }

  function PlayerTypeEnumToString(t: PlayerType): (s: string)
    ensures s == "Human" <==> t == Human
    ensures s == "AI" <==> t == AI
  {
    match t
    case Human => "Human"
    case AI => "AI"
  }

  /** The string tables are mutually inverse, the strings are exactly
      "Human" and "AI", and an unknown string reads as `Human` (value 0). */
  lemma PlayerTypeRoundTrip(t: PlayerType, s: string)
    ensures PlayerTypeStringToEnum(PlayerTypeEnumToString(t)) == t
    ensures PlayerTypeEnumToString(Human) == "Human" && PlayerTypeEnumToString(AI) == "AI"
    ensures s != "Human" && s != "AI" ==> PlayerTypeValue(PlayerTypeStringToEnum(s)) == 0
    ensures s == PlayerTypeEnumToString(t) ==> PlayerTypeStringToEnum(s) == t
  {
  }

  class Player {
    const name: string
    const kind: PlayerType
    /** Left uninitialised by the C++ constructor; `Unassigned` here. */
    var moveType: MoveType

    /** `Player(playerName, playerType)`. */
    constructor (playerName: string, playerType: PlayerType)
      ensures name == playerName && kind == playerType
      ensures moveType == Unassigned
    {
      name := playerName;
      kind := playerType;
      moveType := Unassigned;
    }

    /** `Player()` with the default arguments "GenericName" and `Human`. */
    constructor Generic()
      ensures name == "GenericName" && kind == Human
      ensures moveType == Unassigned
    {
      name := "GenericName";
      kind := Human;
      moveType := Unassigned;
    }

    function GetPlayerName(): (n: string)
      ensures n == name
    {
      name
    }

    function GetPlayerType(): (t: PlayerType)
      ensures t == kind
    {
      kind
    }

    function GetPlayerMoveType(): (m: MoveType)
      reads this
      ensures m == moveType
    {
      moveType
    }

    /** Sets the mark; the name and kind are `const`, so they cannot change. */
    method SetPlayerMoveType(m: MoveType)
      modifies this
      ensures GetPlayerMoveType() == m
    {
      moveType := m;
    }
  }
}
