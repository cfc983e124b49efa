/** The two marks a player can place (Player/Moves.h, Player/Moves.cpp).

    The C++ enum has X = 'X' and O = 'O'; every lookup goes through
    `std::map::operator[]`, which answers a missing key with a
    value-initialised result: the enum value 0 (here `Unassigned`), the
    empty string or the char '\0'. */
module Moves {

  datatype MoveType = X | O | Unassigned

  /** The enum's underlying integer value. */
  function Value(m: MoveType): (v: int)
    ensures m == X <==> v == 'X' as int
    ensures m == O <==> v == 'O' as int
    ensures m == Unassigned <==> v == 0
  {
    match m
    case X => 'X' as int
    case O => 'O' as int
    case Unassigned => 0
  }

  /** Only "X" and "O" are keys of the table; every other string is a
      missing key and reads as `Unassigned`. */
  function MoveTypeStringToEnum(s: string): (m: MoveType)
    ensures m == X <==> s == "X"
    ensures m == O <==> s == "O"
    ensures m == Unassigned <==> s != "X" && s != "O"
  {
    if s == "X" then X
    else if s == "O" then O
    else Unassigned
  }

  /** A mark renders as the one-char string of its own char; `Unassigned`
      is a missing key and renders as the empty string. */
  function MoveTypeEnumToString(m: MoveType): (s: string)
    ensures m == Unassigned <==> s == ""
    ensures m != Unassigned ==> s == [MoveTypeEnumToChar(m)]
  {
    match m
    case X => "X"
    case O => "O"
    case Unassigned => ""
  }

  /** Only 'X' and 'O' are keys of the table, and each reads as the mark
      whose enum value it is; every other char reads as `Unassigned`. */
  function MoveTypeCharToEnum(c: char): (m: MoveType)
    ensures m != Unassigned ==> Value(m) == c as int
    ensures m == Unassigned <==> c != 'X' && c != 'O'
  {
    if c == 'X' then X
    else if c == 'O' then O
    else Unassigned
  }

  /** The char of a mark is the enum's own underlying value; for
      `Unassigned`, a missing key, that is '\0'. */
  function MoveTypeEnumToChar(m: MoveType): (c: char)
    ensures c as int == Value(m)
  {
    match m
    case X => 'X'
    case O => 'O'
    case Unassigned => '\0'
  }

  /** Char lookup inverts char rendering for both marks, and a char other
      than 'X' or 'O' yields the unassigned value. */
  lemma CharRoundTrip(m: MoveType, c: char)
    requires m != Unassigned
    ensures MoveTypeCharToEnum(MoveTypeEnumToChar(m)) == m
    ensures MoveTypeCharToEnum(c) == m <==> c == MoveTypeEnumToChar(m)
    ensures c != 'X' && c != 'O' ==> MoveTypeCharToEnum(c) == Unassigned
  {
  }

  /** String lookup inverts string rendering for both marks; the strings
      are exactly "X" and "O", and any other string yields `Unassigned`. */
  lemma StringRoundTrip(m: MoveType, s: string)
    requires m != Unassigned
    ensures MoveTypeStringToEnum(MoveTypeEnumToString(m)) == m
    ensures MoveTypeEnumToString(m) == [MoveTypeEnumToChar(m)]
    ensures MoveTypeStringToEnum(s) == m <==> s == MoveTypeEnumToString(m)
    ensures s != "X" && s != "O" ==> MoveTypeStringToEnum(s) == Unassigned
  {
  }

  /** The marks are told apart on the board: distinct marks render to
      distinct chars, and neither real mark renders to '\0'. */
  lemma MarksDistinct(m1: MoveType, m2: MoveType)
    ensures MoveTypeEnumToChar(m1) == MoveTypeEnumToChar(m2) <==> m1 == m2
    ensures m1 != Unassigned ==> MoveTypeEnumToChar(m1) != '\0'
  {
  }
}
