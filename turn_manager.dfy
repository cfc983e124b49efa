/** The turn manager (GameLogic/TurnManager.h, GameLogic/TurnManager.cpp):
    the ordered (name, player) list, the index of the player whose turn it
    is, and a wrapping count of completed turns. */
module Turns {
  import opened Base
  import opened Moves
  import opened Players
  import opened BoardSpec
  import opened GridModel
  import opened GameStates

  datatype PlayerNameAndPtr = PlayerNameAndPtr(name: string, ptr: Player)

  /** `m_totalTurns` is an `unsigned int`. */
  const TurnModulus: nat := 0x1_0000_0000

  const PairOutOfRangeMessage: string := "Index out of range in GetPlayerPair"
  const SwapMessage: string := "Cannot swap player positions if there are more than 2 players."

  /** The player objects a list of pairs points to. */
  function Ptrs(ps: seq<PlayerNameAndPtr>): set<Player>
  {
    set p | p in ps :: p.ptr
  }

  /** No later pair points to the same player as pair i, so the mark that
      pair i's player ends up with is the one assigned at index i. */
  predicate LastOccurrence(ps: seq<PlayerNameAndPtr>, i: int)
    requires 0 <= i < |ps|
  {
    forall j :: i < j < |ps| ==> ps[j].ptr != ps[i].ptr
  }

  // ---------------------------------------------------------------------
  // Mark assignment: pair i's player is given pool[i % |pool|], in list
  // order, so a player listed twice keeps the mark of its last listing.

  /** The last index below k whose pair points to p, or -1. */
  function LastAt(ps: seq<PlayerNameAndPtr>, p: Player, k: nat): (j: int)
    requires k <= |ps|
    ensures -1 <= j < k
    ensures 0 <= j ==> ps[j].ptr == p
    ensures forall m :: j < m < k ==> ps[m].ptr != p
  {
    if k == 0 then -1
    else if ps[k - 1].ptr == p then k - 1
    else LastAt(ps, p, k - 1)
  }

  /** The mark each pair's player holds once the assignment loop is done. */
  function Dealt(ps: seq<PlayerNameAndPtr>, pool: seq<MoveType>): (marks: seq<MoveType>)
    requires |pool| > 0
    ensures |marks| == |ps|
    ensures forall i :: 0 <= i < |ps| && LastOccurrence(ps, i) ==> marks[i] == pool[i % |pool|]
    ensures forall i, j :: 0 <= i < |ps| && 0 <= j < |ps| && ps[i].ptr == ps[j].ptr ==> marks[i] == marks[j]
  {
    seq(|ps|, i requires 0 <= i < |ps| => pool[LastAt(ps, ps[i].ptr, |ps|) % |pool|])
  }

  /** Players listed once, with a pool of two: the marks alternate, starting
      with the pool's first. */
  lemma DealtAlternates(ps: seq<PlayerNameAndPtr>, pool: seq<MoveType>)
    requires |pool| == 2
    requires forall i, j :: 0 <= i < j < |ps| ==> ps[i].ptr != ps[j].ptr
    ensures forall i :: 0 <= i < |ps| ==> Dealt(ps, pool)[i] == if i % 2 == 0 then pool[0] else pool[1]
  {
    forall i | 0 <= i < |ps|
      ensures Dealt(ps, pool)[i] == if i % 2 == 0 then pool[0] else pool[1]
    {
      assert LastOccurrence(ps, i);
    }
  }

  // ---------------------------------------------------------------------
  // The X-first ordering: a stable partition, X holders first.

  /** The elements of s whose mark is X (keepX) or is not X (!keepX), in
      their original order. */
  function Select<T>(s: seq<T>, marks: seq<MoveType>, keepX: bool): (r: seq<T>)
    requires |s| == |marks|
    ensures |r| <= |s|
  {
    if |s| == 0 then []
    else (if (marks[0] == X) == keepX then [s[0]] else []) + Select(s[1..], marks[1..], keepX)
  }

  /** The order `stable_sort` with the comparator "a holds X" is meant to
      produce, `marks[i]` being the mark of `s[i]`. */
  function XFirstBy<T>(s: seq<T>, marks: seq<MoveType>): seq<T>
    requires |s| == |marks|
  {
    Select(s, marks, true) + Select(s, marks, false)
  }

  /** The partition loses and invents nothing. */
  lemma {:induction false} SelectPermutes<T>(s: seq<T>, marks: seq<MoveType>)
    requires |s| == |marks|
    ensures multiset(Select(s, marks, true)) + multiset(Select(s, marks, false)) == multiset(s)
  {
    if |s| > 0 {
      SelectPermutes(s[1..], marks[1..]);
      assert s == [s[0]] + s[1..];
    }
  }

  lemma XFirstByPermutes<T>(s: seq<T>, marks: seq<MoveType>)
    requires |s| == |marks|
    ensures multiset(XFirstBy(s, marks)) == multiset(s)
    ensures |XFirstBy(s, marks)| == |s|
  {
    SelectPermutes(s, marks);
    assert |multiset(XFirstBy(s, marks))| == |multiset(s)|;
  }

  lemma {:induction false} SelectLength<T>(s: seq<T>, marks: seq<MoveType>, keepX: bool)
    requires |s| == |marks|
    ensures |Select(marks, marks, keepX)| == |Select(s, marks, keepX)|
  {
    if |s| > 0 {
      SelectLength(s[1..], marks[1..], keepX);
    }
  }

  /** Each side of the partition keeps, position by position, the element
      and the mark of one input position. */
  lemma {:induction false} SelectAligned<T>(s: seq<T>, marks: seq<MoveType>, keepX: bool, k: nat)
    requires |s| == |marks| && k < |Select(s, marks, keepX)|
    ensures |Select(marks, marks, keepX)| == |Select(s, marks, keepX)|
    ensures exists i :: 0 <= i < |s| && Select(s, marks, keepX)[k] == s[i] && Select(marks, marks, keepX)[k] == marks[i]
    ensures (Select(marks, marks, keepX)[k] == X) == keepX
  {
    SelectLength(s, marks, keepX);
    var head := (marks[0] == X) == keepX;
    if head && k == 0 {
      assert Select(s, marks, keepX)[0] == s[0];
      assert Select(marks, marks, keepX)[0] == marks[0];
    } else {
      var k' := if head then k - 1 else k;
      SelectAligned(s[1..], marks[1..], keepX, k');
      var i' :| 0 <= i' < |s| - 1 && Select(s[1..], marks[1..], keepX)[k'] == s[1..][i']
        && Select(marks[1..], marks[1..], keepX)[k'] == marks[1..][i'];
      assert Select(s, marks, keepX)[k] == s[i' + 1];
      assert Select(marks, marks, keepX)[k] == marks[i' + 1];
    }
  }

  /** Position k of the reordered list holds the element of some input
      position i, and the reordered marks hold that position's mark there;
      the reordered marks are all X's followed by all other marks. */
  lemma XFirstByOrdered<T>(s: seq<T>, marks: seq<MoveType>, k: nat)
    requires |s| == |marks| && k < |s|
    ensures |XFirstBy(marks, marks)| == |XFirstBy(s, marks)| == |s|
    ensures exists i :: 0 <= i < |s| && XFirstBy(s, marks)[k] == s[i] && XFirstBy(marks, marks)[k] == marks[i]
    ensures XFirstBy(marks, marks)[k] == X <==> k < |Select(marks, marks, true)|
  {
    XFirstByPermutes(s, marks);
    XFirstByPermutes(marks, marks);
    SelectLength(s, marks, true);
    var n := |Select(s, marks, true)|;
    if k < n {
      SelectAligned(s, marks, true, k);
    } else {
      SelectAligned(s, marks, false, k - n);
    }
  }

  /** The partition of a two-element list. */
  lemma PartitionOfTwo<T>(s: seq<T>, marks: seq<MoveType>)
    requires |s| == |marks| == 2
    ensures XFirstBy(s, marks) ==
      (if marks[0] == X then [s[0]] else []) + (if marks[1] == X then [s[1]] else []) +
      (if marks[0] == X then [] else [s[0]]) + (if marks[1] == X then [] else [s[1]])
  {
    assert s[1..][1..] == [] && marks[1..][1..] == [];
    assert Select(s, marks, true) == (if marks[0] == X then [s[0]] else []) + Select(s[1..], marks[1..], true);
    assert Select(s[1..], marks[1..], true) == (if marks[1] == X then [s[1]] else []) + Select(s[1..][1..], marks[1..][1..], true);
    assert Select(s, marks, false) == (if marks[0] == X then [] else [s[0]]) + Select(s[1..], marks[1..], false);
    assert Select(s[1..], marks[1..], false) == (if marks[1] == X then [] else [s[1]]) + Select(s[1..][1..], marks[1..][1..], false);
  }

  /** Two players holding X and O: the X holder goes first, the O holder
      second, whatever their order before. */
  lemma XFirstOfTwo<T>(s: seq<T>, marks: seq<MoveType>)
    requires |s| == |marks| == 2
    requires {marks[0], marks[1]} == {X, O}
    ensures XFirstBy(s, marks) == if marks[0] == X then s else [s[1], s[0]]
    ensures XFirstBy(marks, marks) == [X, O]
  {
    assert X in {marks[0], marks[1]};
    assert O in {marks[0], marks[1]};
    assert marks[0] == X <==> marks[1] == O;
    PartitionOfTwo(s, marks);
    PartitionOfTwo(marks, marks);
  }

  // ---------------------------------------------------------------------
  // Turn rotation

  /** The current-turn index after k prefix increments from t. */
  function TurnAfter(t: nat, k: nat, n: nat): (r: nat)
    requires n > 0
    ensures t < n ==> r < n
  {
    if k == 0 then t else (TurnAfter(t, k - 1, n) + 1) % n
  }

  lemma ModOfAtMost(y: nat, n: nat)
    requires 0 < n && y <= n
    ensures y % n == if y == n then 0 else y
  {
  }

  /** Fewer than n increments from t < n: the index counts up and wraps
      once past the last player. */
  lemma {:induction false} TurnAfterWithinRound(t: nat, k: nat, n: nat)
    requires t < n && k <= n
    ensures TurnAfter(t, k, n) == if t + k < n then t + k else t + k - n
  {
    if k > 0 {
      TurnAfterWithinRound(t, k - 1, n);
      ModOfAtMost(TurnAfter(t, k - 1, n) + 1, n);
    }
  }

  /** n increments bring the turn back to the same player; with two
      players, two increments do. */
  lemma FullRound(t: nat, n: nat)
    requires t < n
    ensures TurnAfter(t, n, n) == t
  {
    TurnAfterWithinRound(t, n, n);
  }

  /** The turn order repeats with period n. */
  lemma {:induction false} TurnAfterPeriodic(t: nat, k: nat, n: nat)
    requires t < n
    ensures TurnAfter(t, k + n, n) == TurnAfter(t, k, n)
  {
    if k == 0 {
      FullRound(t, n);
    } else {
      TurnAfterPeriodic(t, k - 1, n);
      assert k + n - 1 == (k - 1) + n;
    }
  }

  /** The assignment loop of `SetupPlayers`: pair i's player gets
      `pool[i % |pool|]`. */
  method AssignMarks(ps: seq<PlayerNameAndPtr>, pool: seq<MoveType>)
    requires |pool| > 0
    modifies Ptrs(ps)
    ensures forall i :: 0 <= i < |ps| ==> ps[i].ptr.moveType == Dealt(ps, pool)[i]
  {
    var i := 0;
    while i < |ps|
      invariant 0 <= i <= |ps|
      invariant forall k :: 0 <= k < i ==> ps[k].ptr.moveType == pool[LastAt(ps, ps[k].ptr, i) % |pool|]
    {
      ps[i].ptr.SetPlayerMoveType(pool[i % |pool|]);
      i := i + 1;
    }
  }

  class TurnManager {
    var players: seq<PlayerNameAndPtr>
    var currentTurn: nat
    var totalTurns: nat

    ghost predicate Valid()
      reads this
    {
      (currentTurn == 0 || currentTurn < |players|) && totalTurns < TurnModulus
    }

    /** Copies the pairs in the given order; both counters start at 0. */
    constructor (pairs: seq<PlayerNameAndPtr>)
      ensures Valid()
      ensures players == pairs && currentTurn == 0 && totalTurns == 0
    {
      players := pairs;
      currentTurn := 0;
      totalTurns := 0;
    }

    /** The implicit copy constructor. */
    constructor CopyOf(other: TurnManager)
      requires other.Valid()
      ensures Valid()
      ensures players == other.players && currentTurn == other.currentTurn && totalTurns == other.totalTurns
    {
      players := other.players;
      currentTurn := other.currentTurn;
      totalTurns := other.totalTurns;
    }

    /** Prefix `operator++`: the next player's turn, one more turn counted. */
    method Increment()
      requires Valid() && |players| > 0
      modifies this
      ensures Valid() && players == old(players)
      ensures currentTurn == TurnAfter(old(currentTurn), 1, |players|)
      ensures totalTurns == (old(totalTurns) + 1) % TurnModulus
    {
      currentTurn := (currentTurn + 1) % |players|;
      totalTurns := (totalTurns + 1) % TurnModulus;
    }

    /** Postfix `operator++`: a copy of the state before, then `this`
        advanced. */
    method PostIncrement() returns (before: TurnManager)
      requires Valid() && |players| > 0
      modifies this
      ensures fresh(before) && before.Valid()
      ensures before.players == old(players) && before.currentTurn == old(currentTurn)
      ensures before.totalTurns == old(totalTurns)
      ensures Valid() && players == old(players)
      ensures currentTurn == TurnAfter(old(currentTurn), 1, |players|)
      ensures totalTurns == (old(totalTurns) + 1) % TurnModulus
    {
      before := new TurnManager.CopyOf(this);
      Increment();
    }

    function GetCurrentPlayer(): (p: PlayerNameAndPtr)
      reads this
      requires Valid() && |players| > 0
      ensures p in players
    {
      players[currentTurn]
    }

    /** The mark of the player whose turn it is. */
    function CurrentMark(): MoveType
      reads this, Ptrs(players)
      requires Valid() && |players| > 0
    {
      GetCurrentPlayer().ptr.moveType
    }

    function GetCurrentTurn(): (t: nat)
      reads this
      requires Valid()
      ensures |players| > 0 ==> t < |players|
    {
      currentTurn
    }

    method GetPlayerNames() returns (names: seq<string>)
      ensures |names| == |players|
      ensures forall i :: 0 <= i < |players| ==> names[i] == players[i].name
    {
      names := [];
      for i := 0 to |players|
        invariant |names| == i
        invariant forall k :: 0 <= k < i ==> names[k] == players[k].name
      {
        names := names + [players[i].name];
      }
    }

    method GetPlayerPtrs() returns (ptrs: seq<Player>)
      ensures |ptrs| == |players|
      ensures forall i :: 0 <= i < |players| ==> ptrs[i] == players[i].ptr
    {
      ptrs := [];
      for i := 0 to |players|
        invariant |ptrs| == i
        invariant forall k :: 0 <= k < i ==> ptrs[k] == players[k].ptr
      {
        ptrs := ptrs + [players[i].ptr];
      }
    }

    /** The pair at `at`, or `out_of_range`. */
    function GetPlayerPair(at: nat): (r: Result<PlayerNameAndPtr>)
      reads this
      ensures r.Ok? <==> at < |players|
      ensures r.Ok? ==> r.value == players[at]
      ensures r.Err? ==> r.failure == OutOfRange(PairOutOfRangeMessage)
    {
      if at < |players| then Ok(players[at]) else Err(OutOfRange(PairOutOfRangeMessage))
    }

    /** A line of three of the char at (row, col). */
    method IsWinningCondition(grid: Grid, row: Byte, col: Byte) returns (win: bool)
      requires grid.Valid() && grid.InBounds(row, col)
      ensures win <==> HasLine(grid.Contents, grid.Contents[row][col])
    {
      var playerChar := grid.GetCharAt(row, col);
      win := IsWinningConditionFor(grid, playerChar);
    }

    /** The overload taking the char: row, then column, then the diagonals,
        stopping at the first scan that finds a line. */
    method IsWinningConditionFor(grid: Grid, playerChar: char) returns (win: bool)
      requires grid.Valid()
      ensures win <==> HasLine(grid.Contents, playerChar)
    {
      win := grid.CheckForRecurringCharsInRow(playerChar);
      if !win {
        win := grid.CheckForRecurringCharsInCol(playerChar);
      }
      if !win {
        win := grid.CheckForRecurringCharsInDiagonal(playerChar);
      }
      if !win {
        win := grid.CheckForRecurringCharsInAntiDiagonal(playerChar);
      }
    }

    /** No cell is empty and the char at the last changed cell has no line;
        `row` and `col` are not used, as in the source. */
    method IsDrawCondition(grid: Grid, row: Byte, col: Byte) returns (draw: bool)
      requires grid.Valid() && grid.GetRows() >= 1 && grid.GetCols() >= 1
      ensures var last := grid.lastChanged;
        draw <==> Full(grid.Contents, grid.defaultChar) && !HasLine(grid.Contents, grid.Contents[last.0][last.1])
    {
      var allSpotsFilled := true;
      var r := 0;
      while r < grid.cells.Length0
        invariant 0 <= r <= grid.cells.Length0
        invariant allSpotsFilled
        invariant forall i, j :: 0 <= i < r && 0 <= j < grid.cells.Length1 ==> grid.Contents[i][j] != grid.defaultChar
      {
        var c := 0;
        while c < grid.cells.Length1
          invariant 0 <= c <= grid.cells.Length1
          invariant allSpotsFilled
          invariant forall j :: 0 <= j < c ==> grid.Contents[r][j] != grid.defaultChar
        {
          if grid.GetCharAt(r, c) == grid.defaultChar {
            allSpotsFilled := false;
            break;
          }
          c := c + 1;
        }
        if !allSpotsFilled {
          break;
        }
        r := r + 1;
      }
      if allSpotsFilled {
        var last := grid.GetLastChangedChar();
        var win := IsWinningCondition(grid, last.0, last.1);
        draw := !win;
      } else {
        draw := false;
      }
    }

    /** Both counters back to 0; the players and their marks stay. */
    method Reset()
      modifies this
      ensures Valid() && players == old(players)
      ensures currentTurn == 0 && totalTurns == 0
    {
      currentTurn := 0;
      totalTurns := 0;
    }

    /** Player i gets `pool[i % |pool|]`, where the pool is `moveTypes`, or
        its shuffle `shuffled` when `randomize` is set; then the pairs are
        reordered X holders first, reading back each player's mark. */
    method SetupPlayers(moveTypes: seq<MoveType>, randomize: bool, shuffled: seq<MoveType>)
      requires Valid() && |players| > 1 && |moveTypes| > 0
      requires randomize ==> |shuffled| == |moveTypes| && multiset(shuffled) == multiset(moveTypes)
      modifies this, Ptrs(players)
      ensures Valid()
      ensures currentTurn == old(currentTurn) && totalTurns == old(totalTurns)
      ensures var pool := if randomize then shuffled else moveTypes;
        && (forall i :: 0 <= i < |old(players)| ==> old(players)[i].ptr.moveType == Dealt(old(players), pool)[i])
        && players == XFirstBy(old(players), Dealt(old(players), pool))
      ensures |players| == |old(players)| && multiset(players) == multiset(old(players))
    {
      var pool := if randomize then shuffled else moveTypes;
      var ps := players;
      AssignMarks(ps, pool);
      var marks := [];
      for i := 0 to |ps|
        invariant |marks| == i
        invariant forall k :: 0 <= k < i ==> marks[k] == ps[k].ptr.moveType
      {
        marks := marks + [ps[i].ptr.GetPlayerMoveType()];
      }
      assert marks == Dealt(ps, pool);
      XFirstByPermutes(ps, marks);
      players := XFirstBy(ps, marks);
    }

    /** An empty cell gets the current player's mark char and the move
        counts; an occupied one is refused and nothing changes. The turn
        does not advance either way. */
    method MakeMove(grid: Grid, row: Byte, col: Byte) returns (moved: bool)
      requires Valid() && |players| > 0
      requires grid.Valid() && grid.InBounds(row, col)
      modifies grid, grid.cells
      ensures grid.Valid() && grid.cells == old(grid.cells) && grid.defaultChar == old(grid.defaultChar)
      ensures moved <==> old(grid.Contents[row][col]) == grid.defaultChar
      ensures !moved ==> grid.Contents == old(grid.Contents) && grid.lastChanged == old(grid.lastChanged)
      ensures moved ==> grid.lastChanged == (row as int, col as int)
      ensures moved ==> grid.Contents == Write(old(grid.Contents), row, col, MoveTypeEnumToChar(CurrentMark()))
    {
      if grid.GetCharAt(row, col) != grid.defaultChar {
        return false;
      }
      var currentPlayer := GetCurrentPlayer();
      var r := grid.SetCharAt(row, col, MoveTypeEnumToChar(currentPlayer.ptr.GetPlayerMoveType()));
      return true;
    }

    /** Win if the char at (row, col) has a line, else Draw if the board
        is full and the char at the last changed cell has no line, else the
        next player's turn and no outcome. */
    method CheckGameOverState(grid: Grid, row: Byte, col: Byte) returns (outcome: GameOverType)
      requires Valid() && |players| > 0
      requires grid.Valid() && grid.InBounds(row, col)
      modifies this
      ensures Valid() && players == old(players)
      ensures var b, last := grid.Contents, grid.lastChanged;
        && (outcome == Win <==> HasLine(b, b[row][col]))
        && (outcome == Draw <==> !HasLine(b, b[row][col]) && Full(b, grid.defaultChar) && !HasLine(b, b[last.0][last.1]))
      ensures outcome == None ==> currentTurn == TurnAfter(old(currentTurn), 1, |players|)
      ensures outcome == None ==> totalTurns == (old(totalTurns) + 1) % TurnModulus
      ensures outcome != None ==> currentTurn == old(currentTurn) && totalTurns == old(totalTurns)
    {
      var win := IsWinningCondition(grid, row, col);
      if win {
        return Win;
      }
      var draw := IsDrawCondition(grid, row, col);
      if draw {
        return Draw;
      }
      Increment();
      return None;
    }

    /** With exactly two players, exchanges them; otherwise `runtime_error`
        and nothing changes. */
    method SwapPlayerPositions() returns (r: Outcome)
      requires Valid()
      modifies this
      ensures Valid()
      ensures currentTurn == old(currentTurn) && totalTurns == old(totalTurns)
      ensures r.Done? <==> |old(players)| == 2
      ensures r.Done? ==> players == [old(players)[1], old(players)[0]]
      ensures r.Failed? ==> r.failure == RuntimeError(SwapMessage) && players == old(players)
    {
      if |players| == 2 {
        players := [players[1], players[0]];
        return Done;
      }
      return Failed(RuntimeError(SwapMessage));
    }
  }
}
