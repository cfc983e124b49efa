/** The board as a value: what the Grid class stores, stated declaratively.
    The line predicates say what the four scans of Grid/Grid.cpp decide,
    and `Render` is the text the `fmt::formatter<Grid>` of Grid/Grid.h
    produces. */
module BoardSpec {
  import opened Base

  /** Row-major cells: `b[r][c]` is the char at row r, column c. */
  type Board = seq<seq<char>>

  /** `b` has `rows` rows of `cols` cells each. */
  ghost predicate Shape(b: Board, rows: int, cols: int)
  {
    |b| == rows && forall r :: 0 <= r < |b| ==> |b[r]| == cols
  }

  /** The board every cell of which is `ch`. */
  function Filled(rows: nat, cols: nat, ch: char): (b: Board)
    ensures Shape(b, rows, cols)
    ensures forall r, c :: 0 <= r < rows && 0 <= c < cols ==> b[r][c] == ch
  {
    seq(rows, _ => seq(cols, _ => ch))
  }

  /** The board with one cell replaced. */
  function Write(b: Board, r: nat, c: nat, ch: char): (b': Board)
    requires r < |b| && c < |b[r]|
    ensures |b'| == |b| && forall i :: 0 <= i < |b| ==> |b'[i]| == |b[i]|
    ensures b'[r][c] == ch
    ensures forall i, j :: 0 <= i < |b| && 0 <= j < |b[i]| && (i != r || j != c) ==> b'[i][j] == b[i][j]
  {
    b[r := b[r][c := ch]]
  }

  /** Cell (r, c) is on the board and holds `ch`. */
  ghost predicate Cell(b: Board, r: int, c: int, ch: char)
  {
    0 <= r < |b| && 0 <= c < |b[r]| && b[r][c] == ch
  }

  /** Three cells starting at (r, c) and going right hold `ch`. */
  ghost predicate RowTriple(b: Board, r: int, c: int, ch: char)
  {
    Cell(b, r, c, ch) && Cell(b, r, c + 1, ch) && Cell(b, r, c + 2, ch)
  }

  /** Three cells starting at (r, c) and going down hold `ch`. */
  ghost predicate ColTriple(b: Board, r: int, c: int, ch: char)
  {
    Cell(b, r, c, ch) && Cell(b, r + 1, c, ch) && Cell(b, r + 2, c, ch)
  }

  /** Three cells starting at (r, c) and going down-right hold `ch`. */
  ghost predicate DiagTriple(b: Board, r: int, c: int, ch: char)
  {
    Cell(b, r, c, ch) && Cell(b, r + 1, c + 1, ch) && Cell(b, r + 2, c + 2, ch)
  }

  /** Three cells starting at (r, c) and going down-left hold `ch`. */
  ghost predicate AntiTriple(b: Board, r: int, c: int, ch: char)
  {
    Cell(b, r, c, ch) && Cell(b, r + 1, c - 1, ch) && Cell(b, r + 2, c - 2, ch)
  }

  ghost predicate RowRun(b: Board, ch: char)
  {
    exists r, c :: RowTriple(b, r, c, ch)
  }

  ghost predicate ColRun(b: Board, ch: char)
  {
    exists r, c :: ColTriple(b, r, c, ch)
  }

  ghost predicate DiagRun(b: Board, ch: char)
  {
    exists r, c :: DiagTriple(b, r, c, ch)
  }

  ghost predicate AntiDiagRun(b: Board, ch: char)
  {
    exists r, c :: AntiTriple(b, r, c, ch)
  }

  /** Three or more `ch` in a line on some axis. */
  ghost predicate HasLine(b: Board, ch: char)
  {
    RowRun(b, ch) || ColRun(b, ch) || DiagRun(b, ch) || AntiDiagRun(b, ch)
  }

  /** No cell holds the empty sentinel. */
  ghost predicate Full(b: Board, empty: char)
  {
    forall r, c :: 0 <= r < |b| && 0 <= c < |b[r]| ==> b[r][c] != empty
  }

  /** The eight lines of the 3 x 3 game: three rows, three columns and the
      two diagonals. */
  ghost predicate ClassicLine(b: Board, ch: char)
    requires Shape(b, 3, 3)
  {
    || (b[0][0] == ch && b[0][1] == ch && b[0][2] == ch)
    || (b[1][0] == ch && b[1][1] == ch && b[1][2] == ch)
    || (b[2][0] == ch && b[2][1] == ch && b[2][2] == ch)
    || (b[0][0] == ch && b[1][0] == ch && b[2][0] == ch)
    || (b[0][1] == ch && b[1][1] == ch && b[2][1] == ch)
    || (b[0][2] == ch && b[1][2] == ch && b[2][2] == ch)
    || (b[0][0] == ch && b[1][1] == ch && b[2][2] == ch)
    || (b[0][2] == ch && b[1][1] == ch && b[2][0] == ch)
  }

  /** On the 3 x 3 board the four scans together decide exactly the eight
      classic lines. */
  lemma ThreeByThreeLines(b: Board, ch: char)
    requires Shape(b, 3, 3)
    ensures HasLine(b, ch) <==> ClassicLine(b, ch)
  {
    if RowRun(b, ch) {
      var r, c :| RowTriple(b, r, c, ch);
      assert c == 0 && (r == 0 || r == 1 || r == 2);
    }
    if ColRun(b, ch) {
      var r, c :| ColTriple(b, r, c, ch);
      assert r == 0 && (c == 0 || c == 1 || c == 2);
    }
    if DiagRun(b, ch) {
      var r, c :| DiagTriple(b, r, c, ch);
      assert r == 0 && c == 0;
    }
    if AntiDiagRun(b, ch) {
      var r, c :| AntiTriple(b, r, c, ch);
      assert r == 0 && c == 2;
    }
    if ClassicLine(b, ch) {
      if b[0][0] == ch && b[0][1] == ch && b[0][2] == ch { assert RowTriple(b, 0, 0, ch); }
      else if b[1][0] == ch && b[1][1] == ch && b[1][2] == ch { assert RowTriple(b, 1, 0, ch); }
      else if b[2][0] == ch && b[2][1] == ch && b[2][2] == ch { assert RowTriple(b, 2, 0, ch); }
      else if b[0][0] == ch && b[1][0] == ch && b[2][0] == ch { assert ColTriple(b, 0, 0, ch); }
      else if b[0][1] == ch && b[1][1] == ch && b[2][1] == ch { assert ColTriple(b, 0, 1, ch); }
      else if b[0][2] == ch && b[1][2] == ch && b[2][2] == ch { assert ColTriple(b, 0, 2, ch); }
      else if b[0][0] == ch && b[1][1] == ch && b[2][2] == ch { assert DiagTriple(b, 0, 0, ch); }
      else { assert AntiTriple(b, 0, 2, ch); }
    }
  }

  /** The centre-most index of a side of length n, biased to the lower of
      the two middle indices when n is even; computed in `unsigned char`,
      so a side of 0 wraps round to 255. */
  function Center(n: Byte): (i: Byte)
    ensures n >= 1 ==> i < n && i == (n - 1) / 2
    ensures n >= 1 ==> (n - 1 - i == i || n - 1 - i == i + 1)
    ensures n == 0 ==> i == 255
  {
    if n % 2 == 0 then (n / 2 - 1) % 256 else n / 2
  }

  // ---------------------------------------------------------------------
  // Text rendering

  /** The first n cells of a row, separated by single spaces. */
  function RowText(row: seq<char>, n: nat): string
    requires n <= |row|
  {
    if n == 0 then "" else RowText(row, n - 1) + (if n > 1 then " " else "") + [row[n - 1]]
  }

  /** The first n rows, each followed by a newline unless it is the last row
      of the board. */
  function RowsText(b: Board, n: nat): string
    requires n <= |b|
  {
    if n == 0 then ""
    else RowsText(b, n - 1) + RowText(b[n - 1], |b[n - 1]|) + (if n < |b| then "\n" else "")
  }

  /** The formatter's output: a leading newline, then the rows. */
  function Render(b: Board): string
  {
    "\n" + RowsText(b, |b|)
  }

  /** A row of n >= 1 cells renders to 2n - 1 chars: cell k at position 2k,
      a space at every odd position. */
  lemma {:induction false} RowTextLayout(row: seq<char>, n: nat)
    requires n <= |row|
    ensures |RowText(row, n)| == if n == 0 then 0 else 2 * n - 1
    ensures forall k :: 0 <= k < n ==> RowText(row, n)[2 * k] == row[k]
    ensures forall k :: 0 <= k < n - 1 ==> RowText(row, n)[2 * k + 1] == ' '
  {
    if n > 0 {
      RowTextLayout(row, n - 1);
    }
  }

  /** Where cell (r, c) of a board `cols` wide starts in `RowsText`: each
      row takes 2 * cols chars (cells, separating spaces, one newline). */
  function Offset(r: nat, c: nat, cols: nat): nat
  {
    if r == 0 then 2 * c else Offset(r - 1, c, cols) + 2 * cols
  }

  /** `Offset` in closed form. */
  lemma {:induction false} OffsetClosedForm(r: nat, c: nat, cols: nat)
    ensures Offset(r, c, cols) == r * (2 * cols) + 2 * c
  {
    if r > 0 {
      OffsetClosedForm(r - 1, c, cols);
      assert r * (2 * cols) == (r - 1) * (2 * cols) + 2 * cols;
    }
  }

  /** Cell (r, c) is 2 * c chars after the start of row r. */
  lemma {:induction false} OffsetInRow(r: nat, c: nat, cols: nat)
    ensures Offset(r, c, cols) == Offset(r, 0, cols) + 2 * c
  {
    if r > 0 {
      OffsetInRow(r - 1, c, cols);
    }
  }

  /** Later rows start further on. */
  lemma {:induction false} RowStartMono(r: nat, n: nat, cols: nat)
    requires r <= n
    ensures Offset(r, 0, cols) <= Offset(n, 0, cols)
  {
    if r < n {
      RowStartMono(r, n - 1, cols);
      RowStartStep(n, cols);
    }
  }

  /** Row n starts one row's width after row n - 1. */
  lemma RowStartStep(n: nat, cols: nat)
    requires n >= 1
    ensures Offset(n, 0, cols) == Offset(n - 1, 0, cols) + 2 * cols
  {
  }

  /** The first n rows of a rows x cols board (cols >= 1) take 2 * cols chars
      per row, less the final newline when all rows are there. */
  lemma {:induction false} RowsTextLength(b: Board, rows: nat, cols: nat, n: nat)
    requires Shape(b, rows, cols) && cols >= 1 && n <= rows
    ensures |RowsText(b, n)| == Offset(n, 0, cols) - (if n == rows && n > 0 then 1 else 0)
  {
    if n > 0 {
      RowsTextLength(b, rows, cols, n - 1);
      RowTextLayout(b[n - 1], cols);
      RowStartStep(n, cols);
    }
  }

  /** Cell (r, c) is at `Offset(r, c, cols)` in the first n rows, the char
      after it is a space unless it ends its row, in which case it is a
      newline unless the row is the board's last. */
  lemma {:induction false} RowsTextAt(b: Board, rows: nat, cols: nat, n: nat, r: nat, c: nat)
    requires Shape(b, rows, cols) && cols >= 1 && r < n <= rows && c < cols
    ensures Offset(r, c, cols) < |RowsText(b, n)|
    ensures c < cols - 1 || r < n - 1 || n < rows ==> Offset(r, c, cols) + 1 < |RowsText(b, n)|
    ensures RowsText(b, n)[Offset(r, c, cols)] == b[r][c]
    ensures c < cols - 1 ==> RowsText(b, n)[Offset(r, c, cols) + 1] == ' '
    ensures c == cols - 1 && r < rows - 1 ==> RowsText(b, n)[Offset(r, c, cols) + 1] == '\n'
  {
    RowsTextLength(b, rows, cols, n - 1);
    var prefix := RowsText(b, n - 1);
    var line := RowText(b[n - 1], |b[n - 1]|);
    var rest := line + (if n < rows then "\n" else "");
    assert RowsText(b, n) == prefix + rest;
    if r < n - 1 {
      RowsTextAt(b, rows, cols, n - 1, r, c);
      RowStartStep(r + 1, cols);
      RowStartMono(r + 1, n - 1, cols);
      OffsetInRow(r, c, cols);
      OffsetInRow(r + 1, 0, cols);
      assert Offset(r, c, cols) + 1 < |prefix|;
    } else {
      RowTextLayout(b[n - 1], cols);
      OffsetInRow(r, c, cols);
      assert Offset(r, c, cols) == |prefix| + 2 * c;
      assert RowsText(b, n)[Offset(r, c, cols)] == rest[2 * c] == b[r][c];
    }
  }

  /** The rendering of a rows x cols board (both >= 1): it starts with a
      newline, then holds cell (r, c) at 1 + Offset(r, c, cols), with one space
      between neighbouring cells and a newline between rows; it has
      2 * rows * cols chars and ends with the last cell (no trailing
      newline). */
  lemma RenderLayout(b: Board, rows: nat, cols: nat)
    requires Shape(b, rows, cols) && rows >= 1 && cols >= 1
    ensures |Render(b)| == Offset(rows, 0, cols) && Render(b)[0] == '\n'
    ensures forall r, c :: 0 <= r < rows && 0 <= c < cols ==>
      1 + Offset(r, c, cols) < |Render(b)| && Render(b)[1 + Offset(r, c, cols)] == b[r][c]
    ensures forall r, c :: 0 <= r < rows && 0 <= c < cols - 1 ==>
      2 + Offset(r, c, cols) < |Render(b)| && Render(b)[2 + Offset(r, c, cols)] == ' '
    ensures forall r :: 0 <= r < rows - 1 ==>
      Offset(r, cols, cols) < |Render(b)| && Render(b)[Offset(r, cols, cols)] == '\n'
    ensures Render(b)[|Render(b)| - 1] == b[rows - 1][cols - 1]
  {
    RowsTextLength(b, rows, cols, rows);
    forall r, c | 0 <= r < rows && 0 <= c < cols
      ensures 1 + Offset(r, c, cols) < |Render(b)| && Render(b)[1 + Offset(r, c, cols)] == b[r][c]
      ensures c < cols - 1 ==> 2 + Offset(r, c, cols) < |Render(b)| && Render(b)[2 + Offset(r, c, cols)] == ' '
    {
      RenderAt(b, rows, cols, r, c);
    }
    forall r | 0 <= r < rows - 1
      ensures Offset(r, cols, cols) < |Render(b)| && Render(b)[Offset(r, cols, cols)] == '\n'
    {
      RenderAt(b, rows, cols, r, cols - 1);
      OffsetInRow(r, cols, cols);
      OffsetInRow(r, cols - 1, cols);
    }
    RenderAt(b, rows, cols, rows - 1, cols - 1);
    RowStartStep(rows, cols);
    OffsetInRow(rows - 1, cols - 1, cols);
  }

  /** `RowsTextAt` shifted by the leading newline of `Render`. */
  lemma RenderAt(b: Board, rows: nat, cols: nat, r: nat, c: nat)
    requires Shape(b, rows, cols) && cols >= 1 && r < rows && c < cols
    ensures 1 + Offset(r, c, cols) < |Render(b)| && Render(b)[1 + Offset(r, c, cols)] == b[r][c]
    ensures c < cols - 1 || r < rows - 1 ==> 2 + Offset(r, c, cols) < |Render(b)|
    ensures c < cols - 1 ==> Render(b)[2 + Offset(r, c, cols)] == ' '
    ensures c == cols - 1 && r < rows - 1 ==> Render(b)[2 + Offset(r, c, cols)] == '\n'
  {
    RowsTextAt(b, rows, cols, rows, r, c);
    assert Render(b) == "\n" + RowsText(b, rows);
  }
}
