/** The board (Grid/Grid.h, Grid/Grid.cpp): a rows x cols char buffer with
    1..255 per side, the fill char that marks an empty cell, and the
    coordinates of the last cell written. */
module GridModel {
  import opened Base
  import opened BoardSpec

  /** The fill char the constructor and `ResetGridWithNewSize` default to. */
  const DefaultFillChar: char := '.'

  const OutOfBoundsMessage: string := "Index out of bounds"

  class Grid {
    /** The cells; `GetRows()` and `GetCols()` are its dimensions. */
    var cells: array2<char>
    var defaultChar: char
    var lastChanged: (int, int)
    /** The abstract value of `cells`. */
    ghost var Contents: Board

    ghost predicate Valid()
      reads this, cells
    {
      && cells.Length0 < 256 && cells.Length1 < 256
      && Shape(Contents, cells.Length0, cells.Length1)
      && (forall r, c :: 0 <= r < cells.Length0 && 0 <= c < cells.Length1 ==> Contents[r][c] == cells[r, c])
      && (lastChanged == (0, 0) || InBounds(lastChanged.0, lastChanged.1))
    }

    /** The number of rows of the board, below 256 as an `unsigned char`. */
    function GetRows(): (n: nat)
      reads this, cells
      ensures Valid() ==> n == |Contents| && n < 256
    {
      cells.Length0
    }

    /** The length of every row of the board, below 256 as an `unsigned char`. */
    function GetCols(): (n: nat)
      reads this, cells
      ensures Valid() ==> n < 256 && forall r :: 0 <= r < |Contents| ==> |Contents[r]| == n
    {
      cells.Length1
    }

    predicate InBounds(row: int, col: int)
      reads this
    {
      0 <= row < cells.Length0 && 0 <= col < cells.Length1
    }

    /** `Grid(rows, cols, initialChar = '.')`: every cell holds `initialChar`. */
    constructor (rows: Byte, cols: Byte, initialChar: char := DefaultFillChar)
      ensures Valid() && fresh(cells)
      ensures GetRows() == rows && GetCols() == cols && defaultChar == initialChar
      ensures Contents == Filled(rows, cols, initialChar)
      ensures lastChanged == (0, 0)
    {
      defaultChar := initialChar;
      cells := new char[rows, cols]((_, _) => initialChar);
      lastChanged := (0, 0);
      Contents := Filled(rows, cols, initialChar);
    }

    /** The unchecked read; reading outside the board is undefined in the
        source, so it is excluded here. */
    function GetCharAt(row: int, col: int): (ch: char)
      reads this, cells
      requires Valid() && InBounds(row, col)
      ensures ch == Contents[row][col]
    {
      cells[row, col]
    }

    /** The bounds-checked write. */
    method SetCharAt(row: Byte, col: Byte, newChar: char) returns (r: Outcome)
      requires Valid()
      modifies this, cells
      ensures Valid() && cells == old(cells) && defaultChar == old(defaultChar)
      ensures r.Done? <==> InBounds(row, col)
      ensures r.Failed? ==> r.failure == OutOfRange(OutOfBoundsMessage)
      ensures r.Failed? ==> Contents == old(Contents) && lastChanged == old(lastChanged)
      ensures r.Done? ==> Contents == Write(old(Contents), row, col, newChar) && lastChanged == (row, col)
    {
      if row >= cells.Length0 || col >= cells.Length1 {
        return Failed(OutOfRange(OutOfBoundsMessage));
      }
      lastChanged := (row, col);
      cells[row, col] := newChar;
      Contents := Write(Contents, row, col, newChar);
      return Done;
    }

    function GetLastChangedChar(): (p: (int, int))
      reads this, cells
      requires Valid()
      ensures p == (0, 0) || InBounds(p.0, p.1)
    {
      lastChanged
    }

    /** `operator[]`: the row at `index`, or `out_of_range`. */
    function RowAt(index: int): (r: Result<seq<char>>)
      reads this, cells
      requires Valid()
      ensures r.Ok? <==> 0 <= index < GetRows()
      ensures r.Ok? ==> r.value == Contents[index]
      ensures r.Err? ==> r.failure == OutOfRange(OutOfBoundsMessage)
    {
      if index < 0 || index >= cells.Length0 then Err(OutOfRange(OutOfBoundsMessage))
      else
        var a := cells;
        var row := seq(a.Length1, c requires 0 <= c < a.Length1 reads a => a[index, c]);
        assert row == Contents[index];
        Ok(row)
    }

    /** Every cell back to the fill char; the last-changed cell back to (0, 0). */
    method ResetGrid()
      requires Valid()
      modifies this, cells
      ensures Valid() && cells == old(cells) && defaultChar == old(defaultChar)
      ensures Contents == Filled(GetRows(), GetCols(), defaultChar)
      ensures lastChanged == (0, 0)
    {
      var a := cells;
      var i := 0;
      while i < a.Length0
        invariant 0 <= i <= a.Length0
        invariant forall r, c :: 0 <= r < i && 0 <= c < a.Length1 ==> a[r, c] == defaultChar
        modifies a
      {
        forall c | 0 <= c < a.Length1 {
          a[i, c] := defaultChar;
        }
        i := i + 1;
      }
      lastChanged := (0, 0);
      Contents := Filled(a.Length0, a.Length1, defaultChar);
    }

    /** Discards the cells and starts over at the new size, filled with
        `newChar`, which becomes the fill char. */
    method ResetGridWithNewSize(newRows: Byte, newCols: Byte, newChar: char := DefaultFillChar)
      requires Valid()
      modifies this, cells
      ensures Valid() && fresh(cells)
      ensures GetRows() == newRows && GetCols() == newCols && defaultChar == newChar
      ensures Contents == Filled(newRows, newCols, newChar)
      ensures lastChanged == (0, 0)
    {
      defaultChar := newChar;
      ResetGrid();
      cells := new char[newRows, newCols]((_, _) => newChar);
      Contents := Filled(newRows, newCols, newChar);
    }

    /** Refills the board with `newChar`, which becomes the fill char. */
    method ResetGridWithNewChar(newChar: char)
      requires Valid()
      modifies this, cells
      ensures Valid() && cells == old(cells)
      ensures defaultChar == newChar
      ensures Contents == Filled(GetRows(), GetCols(), newChar)
      ensures lastChanged == (0, 0)
    {
      defaultChar := newChar;
      ResetGrid();
    }

    /** Scans each row left to right with a run counter that restarts on a
        mismatch; true exactly when some row holds three `playerChar` in a row. */
    method CheckForRecurringCharsInRow(playerChar: char) returns (found: bool)
      requires Valid()
      ensures found <==> RowRun(Contents, playerChar)
    {
      var row := 0;
      while row < cells.Length0
        invariant 0 <= row <= cells.Length0
        invariant forall r, c :: r < row ==> !RowTriple(Contents, r, c, playerChar)
      {
        var count := 0;
        var col := 0;
        while col < cells.Length1
          invariant 0 <= col <= cells.Length1
          invariant 0 <= count <= col && count < 3
          invariant forall k :: col - count <= k < col ==> Contents[row][k] == playerChar
          invariant count < col ==> Contents[row][col - count - 1] != playerChar
          invariant forall c :: c + 2 < col ==> !RowTriple(Contents, row, c, playerChar)
        {
          if GetCharAt(row, col) == playerChar {
            count := count + 1;
            if count >= 3 {
              assert RowTriple(Contents, row, col - 2, playerChar);
              return true;
            }
          } else {
            count := 0;
          }
          col := col + 1;
        }
        row := row + 1;
      }
      return false;
    }

    /** The column scan: the row scan with rows and columns exchanged. */
    method CheckForRecurringCharsInCol(playerChar: char) returns (found: bool)
      requires Valid()
      ensures found <==> ColRun(Contents, playerChar)
    {
      var col := 0;
      while col < cells.Length1
        invariant 0 <= col <= cells.Length1
        invariant forall r, c :: c < col ==> !ColTriple(Contents, r, c, playerChar)
      {
        var count := 0;
        var row := 0;
        while row < cells.Length0
          invariant 0 <= row <= cells.Length0
          invariant 0 <= count <= row && count < 3
          invariant forall k :: row - count <= k < row ==> Contents[k][col] == playerChar
          invariant count < row ==> Contents[row - count - 1][col] != playerChar
          invariant forall r :: r + 2 < row ==> !ColTriple(Contents, r, col, playerChar)
        {
          if GetCharAt(row, col) == playerChar {
            count := count + 1;
            if count >= 3 {
              assert ColTriple(Contents, row - 2, col, playerChar);
              return true;
            }
          } else {
            count := 0;
          }
          row := row + 1;
        }
        col := col + 1;
      }
      return false;
    }

    /** Tries every anchor (row, col) with row <= rows - 3 and col <= cols - 3,
        walking down-right from it until a mismatch; true exactly when some
        down-right segment of three cells holds `playerChar`. */
    method CheckForRecurringCharsInDiagonal(playerChar: char) returns (found: bool)
      requires Valid()
      ensures found <==> DiagRun(Contents, playerChar)
    {
      var rows, cols := cells.Length0, cells.Length1;
      var row := 0;
      while row <= rows - 3
        invariant 0 <= row && (rows >= 3 ==> row <= rows - 2)
        invariant forall r, c :: r < row ==> !DiagTriple(Contents, r, c, playerChar)
      {
        var col := 0;
        while col <= cols - 3
          invariant 0 <= col && (cols >= 3 ==> col <= cols - 2)
          invariant forall c :: c < col ==> !DiagTriple(Contents, row, c, playerChar)
        {
          var count := 0;
          var i := 0;
          while i + row < rows && i + col < cols
            invariant 0 <= i == count < 3
            invariant i >= 1 ==> Cell(Contents, row, col, playerChar)
            invariant i >= 2 ==> Cell(Contents, row + 1, col + 1, playerChar)
          {
            if GetCharAt(row + i, col + i) == playerChar {
              count := count + 1;
              if count >= 3 {
                assert DiagTriple(Contents, row, col, playerChar);
                return true;
              }
            } else {
              break;
            }
            i := i + 1;
          }
          assert !DiagTriple(Contents, row, col, playerChar);
          col := col + 1;
        }
        row := row + 1;
      }
      return false;
    }

    /** Tries every anchor (row, col) with row <= rows - 3 and col >= 2, from
        the right, walking down-left from it until a mismatch; true exactly
        when some down-left segment of three cells holds `playerChar`. */
    method CheckForRecurringCharsInAntiDiagonal(playerChar: char) returns (found: bool)
      requires Valid()
      ensures found <==> AntiDiagRun(Contents, playerChar)
    {
      var rows, cols := cells.Length0, cells.Length1;
      var row := 0;
      while row <= rows - 3
        invariant 0 <= row && (rows >= 3 ==> row <= rows - 2)
        invariant forall r, c :: r < row ==> !AntiTriple(Contents, r, c, playerChar)
      {
        var col := cols - 1;
        while col >= 2
          invariant col <= cols - 1
          invariant forall c :: col < c ==> !AntiTriple(Contents, row, c, playerChar)
        {
          var count := 0;
          var i := 0;
          while i + row < rows && col - i >= 0
            invariant 0 <= i == count < 3
            invariant i >= 1 ==> Cell(Contents, row, col, playerChar)
            invariant i >= 2 ==> Cell(Contents, row + 1, col - 1, playerChar)
          {
            if GetCharAt(row + i, col - i) == playerChar {
              count := count + 1;
              if count >= 3 {
                assert AntiTriple(Contents, row, col, playerChar);
                return true;
              }
            } else {
              break;
            }
            i := i + 1;
          }
          assert !AntiTriple(Contents, row, col, playerChar);
          col := col - 1;
        }
        row := row + 1;
      }
      return false;
    }

    /** The centre-most cell, the upper-left of the middle ones on an even side. */
    function GetCenterMostCoords(): (p: (Byte, Byte))
      reads this, cells
      requires Valid()
      ensures GetRows() >= 1 && GetCols() >= 1 ==> InBounds(p.0, p.1)
      ensures GetRows() >= 1 ==> p.0 == (GetRows() - 1) / 2
      ensures GetCols() >= 1 ==> p.1 == (GetCols() - 1) / 2
    {
      (Center(cells.Length0), Center(cells.Length1))
    }

    function GetCharCenterMostElement(): (ch: char)
      reads this, cells
      requires Valid() && GetRows() >= 1 && GetCols() >= 1
      ensures ch == Contents[(GetRows() - 1) / 2][(GetCols() - 1) / 2]
    {
      var p := GetCenterMostCoords();
      GetCharAt(p.0, p.1)
    }

    /** The `fmt::formatter<Grid>` output, built cell by cell. */
    method Format() returns (s: string)
      requires Valid()
      ensures s == Render(Contents)
    {
      s := "\n";
      var i := 0;
      while i < cells.Length0
        invariant 0 <= i <= cells.Length0
        invariant s == "\n" + RowsText(Contents, i)
      {
        var j := 0;
        while j < cells.Length1
          invariant 0 <= j <= cells.Length1
          invariant s == "\n" + RowsText(Contents, i) + RowText(Contents[i], j)
        {
          if j > 0 {
            s := s + " ";
          }
          s := s + [cells[i, j]];
          j := j + 1;
        }
        if i < cells.Length0 - 1 {
          s := s + "\n";
        }
        i := i + 1;
      }
    }
  }
}
