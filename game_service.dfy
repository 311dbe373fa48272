/**
 * The board algorithm of GameService: move validation, dropping a token,
 * four-in-a-row detection and the draw test, all over the serialised board
 * state (six rows of seven cells, rows separated by ';', top row first,
 * '0' for an empty cell).
 *
 * Each operation takes the `State` string of the board it is given in the
 * source; the `Board` object itself is read for nothing else.
 */
module GameService {
  import opened Text

  const Rows: int := 6
  const Columns: int := 7
  const Empty: char := '0'
  const Separator: char := ';'

  /** The state of a new game: six empty rows. */
  const EmptyBoardState: string := "0000000;0000000;0000000;0000000;0000000;0000000"

  /** The parsed board: a sequence of rows, top row first. */
  type Grid = seq<seq<char>>

  function Parse(state: string): Grid {
    Split(state, Separator)
  }

  function Serialize(g: Grid): string
    requires |g| >= 1
  {
    Join(g, Separator)
  }

  /** Six rows of seven cells. */
  predicate IsBoard(g: Grid) {
    |g| == Rows && forall r :: 0 <= r < |g| ==> |g[r]| == Columns
  }

  predicate WellFormed(state: string) {
    IsBoard(Parse(state))
  }

  predicate InBounds(r: int, c: int) {
    0 <= r < Rows && 0 <= c < Columns
  }

  /** Every token rests on tokens all the way down its column. */
  predicate Gravity(g: Grid)
    requires IsBoard(g)
  {
    forall r1, r2, c :: 0 <= r1 < r2 < Rows && 0 <= c < Columns && g[r1][c] != Empty ==> g[r2][c] != Empty
  }

  ghost predicate IsFull(g: Grid)
    requires IsBoard(g)
  {
    forall r, c :: InBounds(r, c) ==> g[r][c] != Empty
  }

  // ---------------------------------------------------------------------------
  // Four in a row, stated cell by cell. Each predicate names the run by the
  // cell it starts from.

  /** Cells (r, c) .. (r, c+3). */
  predicate HorizontalFour(g: Grid, r: int, c: int, t: char)
    requires IsBoard(g)
  {
    InBounds(r, c) && InBounds(r, c + 3)
    && g[r][c] == t && g[r][c + 1] == t && g[r][c + 2] == t && g[r][c + 3] == t
  }

  /** Cells (r, c) .. (r+3, c). */
  predicate VerticalFour(g: Grid, r: int, c: int, t: char)
    requires IsBoard(g)
  {
    InBounds(r, c) && InBounds(r + 3, c)
    && g[r][c] == t && g[r + 1][c] == t && g[r + 2][c] == t && g[r + 3][c] == t
  }

  /** Cells (r, c) .. (r+3, c+3), going down to the right. */
  predicate DiagonalFour(g: Grid, r: int, c: int, t: char)
    requires IsBoard(g)
  {
    InBounds(r, c) && InBounds(r + 3, c + 3)
    && g[r][c] == t && g[r + 1][c + 1] == t && g[r + 2][c + 2] == t && g[r + 3][c + 3] == t
  }

  /** Cells (r, c) .. (r-3, c+3), going up to the right. */
  predicate AntiDiagonalFour(g: Grid, r: int, c: int, t: char)
    requires IsBoard(g)
  {
    InBounds(r, c) && InBounds(r - 3, c + 3)
    && g[r][c] == t && g[r - 1][c + 1] == t && g[r - 2][c + 2] == t && g[r - 3][c + 3] == t
  }

  predicate FourStartsAt(g: Grid, r: int, c: int, t: char)
    requires IsBoard(g)
  {
    HorizontalFour(g, r, c, t) || VerticalFour(g, r, c, t)
    || DiagonalFour(g, r, c, t) || AntiDiagonalFour(g, r, c, t)
  }

  /** Four tokens `t` in a line, in any of the four directions. */
  ghost predicate HasFour(g: Grid, t: char)
    requires IsBoard(g)
  {
    exists r, c :: FourStartsAt(g, r, c, t)
  }

  // ---------------------------------------------------------------------------
  // Dropping a token.

  /** The lowest empty cell of `column` at or above `row`, or -1 when there is none. */
  function LowestEmptyAt(g: Grid, column: int, row: int): (r: int)
    requires IsBoard(g) && 0 <= column < Columns && -1 <= row < Rows
    ensures -1 <= r <= row
    ensures r >= 0 ==> g[r][column] == Empty
    ensures forall k :: r < k <= row ==> g[k][column] != Empty
    decreases row + 1
  {
    if row < 0 then -1
    else if g[row][column] == Empty then row
    else LowestEmptyAt(g, column, row - 1)
  }

  /** Where a token dropped into `column` lands, or -1 when the column is full. */
  function Landing(g: Grid, column: int): int
    requires IsBoard(g) && 0 <= column < Columns
  {
    LowestEmptyAt(g, column, Rows - 1)
  }

  /** The board after `color` is dropped into `column`; a full column is left as it is. */
  function Drop(g: Grid, column: int, color: char): (h: Grid)
    requires IsBoard(g) && 0 <= column < Columns
    ensures IsBoard(h)
  {
    var r := Landing(g, column);
    if r < 0 then g else g[r := g[r][column := color]]
  }

  // ---------------------------------------------------------------------------
  // GameService operations.

  /**
   * The top cell of the column is empty. A free column always has a cell for
   * a dropped token, and on a board obeying gravity it is the only kind that
   * has one.
   */
  function IsColumnFree(state: string, column: int): (free: bool)
    requires WellFormed(state) && 0 <= column < Columns
    ensures free ==> Landing(Parse(state), column) >= 0
    ensures Gravity(Parse(state)) ==> (free <==> Landing(Parse(state), column) >= 0)
  {
    var g := Parse(state);
    var r := Landing(g, column);
    assert r < 0 ==> g[0][column] != Empty;
    assert Gravity(g) && r >= 0 ==> g[0][column] == Empty;
    g[0][column] == Empty
  }

  function ValidateMove(state: string, column: int): (valid: bool)
    requires WellFormed(state)
    ensures valid ==> 0 <= column < Columns
  {
    if column < 0 || column >= 7 then false
    else IsColumnFree(state, column)
  }

  /** The top row holds no empty cell; on a well-formed board, exactly when no column accepts a move. */
  function CheckDraw(state: string): (draw: bool)
    ensures WellFormed(state) ==> (draw <==> forall c :: !ValidateMove(state, c))
  {
    var top := Parse(state)[0];
    var full := forall c :: 0 <= c < |top| ==> top[c] != Empty;
    assert WellFormed(state) ==> (full <==> forall c :: !ValidateMove(state, c)) by {
      if WellFormed(state) {
        forall c ensures ValidateMove(state, c) <==> 0 <= c < |top| && top[c] == Empty {
        }
      }
    }
    full
  }

  /**
   * Places `userColor` in the lowest empty cell of `column`; the result is
   * the serialised `Drop`. A full column leaves the state unchanged, and a
   * colour other than the separator keeps the state well formed.
   */
  method UpdateBoard(state: string, userColor: char, column: int) returns (updated: string)
    requires WellFormed(state) && 0 <= column < Columns
    ensures updated == Serialize(Drop(Parse(state), column, userColor))
    ensures Landing(Parse(state), column) < 0 ==> updated == state
    ensures userColor != Separator ==> WellFormed(updated) && Parse(updated) == Drop(Parse(state), column, userColor)
  {
    var boardArray := Parse(state);
    var row := |boardArray| - 1;
    while row >= 0
      invariant -1 <= row < Rows
      invariant boardArray == Parse(state)
      invariant forall k :: row < k < Rows ==> boardArray[k][column] != Empty
    {
      if boardArray[row][column] == Empty {
        boardArray := boardArray[row := boardArray[row][column := userColor]];
        break;
      }
      row := row - 1;
    }
    updated := Join(boardArray, Separator);
    JoinSplit(state, Separator);
    if userColor != Separator {
      SplitJoin(boardArray, Separator);
    }
  }

  /** Four tokens from (row, c) for some c in the window the horizontal scan covers. */
  method CheckHorizontal(board: Grid, row: int, col: int, token: char) returns (found: bool)
    requires IsBoard(board) && InBounds(row, col)
    ensures found <==> exists s :: Max(0, col - 3) <= s && s + 3 <= Min(6, col + 3) && HorizontalFour(board, row, s, token)
  {
    var lo, hi := Max(0, col - 3), Min(6, col + 3);
    var count := 0;
    var i := lo;
    while i <= hi
      invariant lo <= i <= hi + 1
      invariant 0 <= count <= 3 && count <= i - lo
      invariant forall k :: i - count <= k < i ==> board[row][k] == token
      invariant lo < i - count ==> board[row][i - count - 1] != token
      invariant forall s :: lo <= s && s + 3 < i ==> !HorizontalFour(board, row, s, token)
    {
      if board[row][i] == token {
        count := count + 1;
        if count == 4 {
          assert HorizontalFour(board, row, i - 3, token);
          return true;
        }
      } else {
        count := 0;
      }
      i := i + 1;
    }
    return false;
  }

  /** Four tokens from (r, col) for some r in the window the vertical scan covers. */
  method CheckVertical(board: Grid, row: int, col: int, token: char) returns (found: bool)
    requires IsBoard(board) && InBounds(row, col)
    ensures found <==> exists s :: Max(0, row - 3) <= s && s + 3 <= Min(5, row + 3) && VerticalFour(board, s, col, token)
  {
    var lo, hi := Max(0, row - 3), Min(5, row + 3);
    var count := 0;
    var i := lo;
    while i <= hi
      invariant lo <= i <= hi + 1
      invariant 0 <= count <= 3 && count <= i - lo
      invariant forall k :: i - count <= k < i ==> board[k][col] == token
      invariant lo < i - count ==> board[i - count - 1][col] != token
      invariant forall s :: lo <= s && s + 3 < i ==> !VerticalFour(board, s, col, token)
    {
      if board[i][col] == token {
        count := count + 1;
        if count == 4 {
          assert VerticalFour(board, i - 3, col, token);
          return true;
        }
      } else {
        count := 0;
      }
      i := i + 1;
    }
    return false;
  }

  /**
   * Four tokens along one of the two diagonals through (row, col), starting
   * at most three steps to the left of it. The second scan runs only when the
   * first found nothing.
   */
  method CheckDiagonal(board: Grid, row: int, col: int, token: char) returns (found: bool)
    requires IsBoard(board) && InBounds(row, col)
    ensures found <==>
      (exists s :: -3 <= s <= 0 && DiagonalRun(board, row, col, s, false, token))
      || (exists s :: -3 <= s <= 0 && DiagonalRun(board, row, col, s, true, token))
  {
    found := ScanDownRight(board, row, col, token);
    if !found {
      found := ScanUpRight(board, row, col, token);
    }
  }

  /** Row of step k along the diagonal through (row, col): downwards, or upwards when `up`. */
  function StepRow(row: int, k: int, up: bool): int {
    if up then row - k else row + k
  }

  predicate OnDiagonal(row: int, col: int, k: int, up: bool) {
    InBounds(StepRow(row, k, up), col + k)
  }

  function DiagonalCell(board: Grid, row: int, col: int, k: int, up: bool): char
    requires IsBoard(board) && OnDiagonal(row, col, k, up)
  {
    board[StepRow(row, k, up)][col + k]
  }

  /** Steps s .. s+3 of the diagonal through (row, col) all hold `t`. */
  predicate DiagonalRun(board: Grid, row: int, col: int, s: int, up: bool, t: char)
    requires IsBoard(board)
  {
    OnDiagonal(row, col, s, up) && OnDiagonal(row, col, s + 1, up)
    && OnDiagonal(row, col, s + 2, up) && OnDiagonal(row, col, s + 3, up)
    && DiagonalCell(board, row, col, s, up) == t && DiagonalCell(board, row, col, s + 1, up) == t
    && DiagonalCell(board, row, col, s + 2, up) == t && DiagonalCell(board, row, col, s + 3, up) == t
  }

  /**
   * The first scan of CheckDiagonal: step i, for i from -3 to 3, visits
   * (row + i, col + i); steps outside the board are skipped without
   * resetting the count.
   */
  method ScanDownRight(board: Grid, row: int, col: int, token: char) returns (found: bool)
    requires IsBoard(board) && InBounds(row, col)
    ensures found <==> exists s :: -3 <= s <= 0 && DiagonalRun(board, row, col, s, false, token)
  {
    var count := 0;
    var i := -3;
    // One past the last step that fell inside the board.
    ghost var j := -3;
    while i <= 3
      invariant ScanInvariant(board, row, col, false, token, i, j, count)
    {
      var currentRow, currentCol := row + i, col + i;
      if currentRow >= 0 && currentRow < 6 && currentCol >= 0 && currentCol < 7 {
        assert OnDiagonal(row, col, i, false) && board[currentRow][currentCol] == DiagonalCell(board, row, col, i, false);
        if board[currentRow][currentCol] == token {
          ScanToken(board, row, col, false, token, i, j, count);
          count := count + 1;
          if count == 4 {
            return true;
          }
        } else {
          ScanOther(board, row, col, false, token, i, j, count);
          count := 0;
        }
        j := i + 1;
      } else {
        ScanOffBoard(board, row, col, false, token, i, j, count);
      }
      i := i + 1;
    }
    NoRunAfterScan(board, row, col, false, token, j, count);
    return false;
  }

  /** The second scan of CheckDiagonal: step i visits (row - i, col + i). */
  method ScanUpRight(board: Grid, row: int, col: int, token: char) returns (found: bool)
    requires IsBoard(board) && InBounds(row, col)
    ensures found <==> exists s :: -3 <= s <= 0 && DiagonalRun(board, row, col, s, true, token)
  {
    var count := 0;
    var i := -3;
    // One past the last step that fell inside the board.
    ghost var j := -3;
    while i <= 3
      invariant ScanInvariant(board, row, col, true, token, i, j, count)
    {
      var currentRow, currentCol := row - i, col + i;
      if currentRow >= 0 && currentRow < 6 && currentCol >= 0 && currentCol < 7 {
        assert OnDiagonal(row, col, i, true) && board[currentRow][currentCol] == DiagonalCell(board, row, col, i, true);
        if board[currentRow][currentCol] == token {
          ScanToken(board, row, col, true, token, i, j, count);
          count := count + 1;
          if count == 4 {
            return true;
          }
        } else {
          ScanOther(board, row, col, true, token, i, j, count);
          count := 0;
        }
        j := i + 1;
      } else {
        ScanOffBoard(board, row, col, true, token, i, j, count);
      }
      i := i + 1;
    }
    NoRunAfterScan(board, row, col, true, token, j, count);
    return false;
  }

  /**
   * What a diagonal scan knows before step i: `count` consecutive tokens end
   * just before step j, the last step on the board, and are preceded by a
   * cell that is not a token or by no cell at all; every step between j and
   * i fell outside the board; and no run starts before step i - 3.
   */
  predicate ScanInvariant(board: Grid, row: int, col: int, up: bool, token: char, i: int, j: int, count: int)
    requires IsBoard(board)
  {
    -3 <= j <= i <= 4
    && (j < i ==> !OnDiagonal(row, col, i - 1, up))
    && 0 <= count <= 3 && count <= j + 3
    && (forall k :: j - count <= k < j ==> OnDiagonal(row, col, k, up) && DiagonalCell(board, row, col, k, up) == token)
    && (-3 < j - count && OnDiagonal(row, col, j - count - 1, up) ==> DiagonalCell(board, row, col, j - count - 1, up) != token)
    && (forall s :: -3 <= s && s + 3 < i ==> !DiagonalRun(board, row, col, s, up, token))
  }

  /** A token at step i extends the count; the fourth completes a run ending at step i. */
  lemma ScanToken(board: Grid, row: int, col: int, up: bool, token: char, i: int, j: int, count: int)
    requires IsBoard(board) && ScanInvariant(board, row, col, up, token, i, j, count) && i <= 3
    requires OnDiagonal(row, col, i, up) && DiagonalCell(board, row, col, i, up) == token
    ensures count == 3 ==> -3 <= i - 3 <= 0 && DiagonalRun(board, row, col, i - 3, up, token)
    ensures count < 3 ==> ScanInvariant(board, row, col, up, token, i + 1, i + 1, count + 1)
  {
    if count > 0 {
      assert OnDiagonal(row, col, j - 1, up);
    }
    if count < 3 {
      RunNeedsFourCounted(board, row, col, up, token, i, j, count);
    }
  }

  /** Another cell at step i resets the count. */
  lemma ScanOther(board: Grid, row: int, col: int, up: bool, token: char, i: int, j: int, count: int)
    requires IsBoard(board) && ScanInvariant(board, row, col, up, token, i, j, count) && i <= 3
    requires OnDiagonal(row, col, i, up) && DiagonalCell(board, row, col, i, up) != token
    ensures ScanInvariant(board, row, col, up, token, i + 1, i + 1, 0)
  {
    assert i >= 0 ==> !DiagonalRun(board, row, col, i - 3, up, token);
  }

  /** A step outside the board is skipped and keeps the count. */
  lemma ScanOffBoard(board: Grid, row: int, col: int, up: bool, token: char, i: int, j: int, count: int)
    requires IsBoard(board) && ScanInvariant(board, row, col, up, token, i, j, count) && i <= 3
    requires !OnDiagonal(row, col, i, up)
    ensures ScanInvariant(board, row, col, up, token, i + 1, j, count)
  {
    assert i >= 0 ==> !DiagonalRun(board, row, col, i - 3, up, token);
  }

  /** A scan that ran to the end without completing a run found none. */
  lemma NoRunAfterScan(board: Grid, row: int, col: int, up: bool, token: char, j: int, count: int)
    requires IsBoard(board) && ScanInvariant(board, row, col, up, token, 4, j, count)
    ensures !exists s :: -3 <= s <= 0 && DiagonalRun(board, row, col, s, up, token)
  {
  }

  /**
   * During the diagonal scan, a run ending at step i needs the three steps
   * before it counted already.
   */
  lemma RunNeedsFourCounted(board: Grid, row: int, col: int, up: bool, token: char, i: int, j: int, count: int)
    requires IsBoard(board) && -3 <= j <= i && 0 <= count < 3
    requires j < i ==> !OnDiagonal(row, col, i - 1, up)
    requires -3 < j - count && OnDiagonal(row, col, j - count - 1, up)
      ==> DiagonalCell(board, row, col, j - count - 1, up) != token
    ensures i >= 0 ==> !DiagonalRun(board, row, col, i - 3, up, token)
  {
  }

  /** The scan from every cell of the colour finds exactly the boards with four in a row. */
  method CheckWin(state: string, userColor: char) returns (won: bool)
    requires WellFormed(state)
    ensures won <==> HasFour(Parse(state), userColor)
  {
    var boardArray := Parse(state);
    var row := 0;
    while row < |boardArray|
      invariant 0 <= row <= Rows
      invariant forall r, c :: r < row ==> !FourStartsAt(boardArray, r, c, userColor)
    {
      var col := 0;
      while col < |boardArray[row]|
        invariant 0 <= col <= Columns
        invariant forall r, c :: r < row || (r == row && c < col) ==> !FourStartsAt(boardArray, r, c, userColor)
      {
        if boardArray[row][col] == userColor {
          var found := CheckHorizontal(boardArray, row, col, userColor);
          if !found {
            found := CheckVertical(boardArray, row, col, userColor);
          }
          if !found {
            found := CheckDiagonal(boardArray, row, col, userColor);
          }
          if found {
            FoundFourIsFour(boardArray, row, col, userColor);
            return true;
          }
          assert !DiagonalRun(boardArray, row, col, 0, false, userColor);
          assert !DiagonalRun(boardArray, row, col, 0, true, userColor);
        }
        col := col + 1;
      }
      row := row + 1;
    }
    return false;
  }

  /** A run found by one of the windowed scans is a four in a row. */
  lemma FoundFourIsFour(g: Grid, row: int, col: int, t: char)
    requires IsBoard(g)
    requires (exists s :: HorizontalFour(g, row, s, t))
      || (exists s :: VerticalFour(g, s, col, t))
      || (exists s :: DiagonalRun(g, row, col, s, false, t))
      || (exists s :: DiagonalRun(g, row, col, s, true, t))
    ensures HasFour(g, t)
  {
    if exists s :: HorizontalFour(g, row, s, t) {
      var s :| HorizontalFour(g, row, s, t);
      assert FourStartsAt(g, row, s, t);
    } else if exists s :: VerticalFour(g, s, col, t) {
      var s :| VerticalFour(g, s, col, t);
      assert FourStartsAt(g, s, col, t);
    } else if exists s :: DiagonalRun(g, row, col, s, false, t) {
      var s :| DiagonalRun(g, row, col, s, false, t);
      assert FourStartsAt(g, row + s, col + s, t);
    } else {
      var s :| DiagonalRun(g, row, col, s, true, t);
      assert FourStartsAt(g, row - s, col + s, t);
    }
  }

  // ---------------------------------------------------------------------------
  // Properties of the board and of dropping tokens.

  const EmptyRow: string := "0000000"

  /** The initial state is the join of six empty rows. */
  lemma EmptyBoardIsJoin()
    ensures EmptyBoardState == Join([EmptyRow, EmptyRow, EmptyRow, EmptyRow, EmptyRow, EmptyRow], Separator)
  {
    JoinSixRows(EmptyRow, Separator);
  }

  /** Six copies of a row joined by the separator. */
  lemma JoinSixRows(row: string, sep: char)
    ensures Join([row, row, row, row, row, row], sep)
         == row + [sep] + row + [sep] + row + [sep] + row + [sep] + row + [sep] + row
  {
    var rows := [row, row, row, row, row, row];
    JoinStep(rows[5..], row, sep);
    JoinStep(rows[4..], row, sep);
    JoinStep(rows[3..], row, sep);
    JoinStep(rows[2..], row, sep);
    JoinStep(rows[1..], row, sep);
    assert rows == [row] + rows[1..];
  }

  /** Joining one more piece in front. */
  lemma JoinStep(parts: seq<string>, piece: string, sep: char)
    requires |parts| >= 1
    ensures Join([piece] + parts, sep) == piece + [sep] + Join(parts, sep)
  {
    assert ([piece] + parts)[1..] == parts;
  }

  /** The initial state parses to six empty rows of seven cells, and is no draw. */
  lemma {:induction false} EmptyBoardParses()
    ensures Parse(EmptyBoardState) == [EmptyRow, EmptyRow, EmptyRow, EmptyRow, EmptyRow, EmptyRow]
    ensures WellFormed(EmptyBoardState) && !CheckDraw(EmptyBoardState)
  {
    var rows := [EmptyRow, EmptyRow, EmptyRow, EmptyRow, EmptyRow, EmptyRow];
    EmptyBoardIsSplit(rows);
    EmptyRowsShape(EmptyBoardState, rows);
  }

  lemma EmptyRowsShape(state: string, rows: seq<string>)
    requires rows == [EmptyRow, EmptyRow, EmptyRow, EmptyRow, EmptyRow, EmptyRow]
    requires Parse(state) == rows
    ensures WellFormed(state) && !CheckDraw(state)
  {
    assert rows[0][0] == Empty;
  }

  lemma EmptyBoardIsSplit(rows: seq<string>)
    requires rows == [EmptyRow, EmptyRow, EmptyRow, EmptyRow, EmptyRow, EmptyRow]
    ensures Parse(EmptyBoardState) == rows
  {
    EmptyBoardIsJoin();
    SplitJoin(rows, Separator);
  }

  /** A board without tokens obeys gravity and holds no four in a row. */
  lemma EmptyGridHasNoFour(g: Grid, t: char)
    requires IsBoard(g) && forall r, c :: InBounds(r, c) ==> g[r][c] == Empty
    requires t != Empty
    ensures Gravity(g) && !HasFour(g, t)
  {
  }

  /**
   * A drop changes only the landing cell, which was empty, lies on a token or
   * on the floor, and now holds the colour.
   */
  lemma DropChangesOnlyLandingCell(g: Grid, column: int, color: char)
    requires IsBoard(g) && 0 <= column < Columns
    ensures var h, r := Drop(g, column, color), Landing(g, column);
      (r >= 0 ==> g[r][column] == Empty && h[r][column] == color)
      && (0 <= r < Rows - 1 ==> g[r + 1][column] != Empty)
      && forall i, c :: InBounds(i, c) && !(i == r && c == column) ==> h[i][c] == g[i][c]
  {
  }

  /** Dropping a real token keeps every token resting on tokens. */
  lemma DropPreservesGravity(g: Grid, column: int, color: char)
    requires IsBoard(g) && 0 <= column < Columns && Gravity(g) && color != Empty
    ensures Gravity(Drop(g, column, color))
  {
  }

  /** On a board obeying gravity, a move is valid exactly when the token has somewhere to land. */
  lemma ValidMoveIffRoomInColumn(state: string, column: int)
    requires WellFormed(state) && Gravity(Parse(state))
    ensures ValidateMove(state, column) <==> 0 <= column < Columns && Landing(Parse(state), column) >= 0
  {
  }

  /** On a board obeying gravity, a full top row means a full board. */
  lemma DrawIffBoardFull(state: string)
    requires WellFormed(state) && Gravity(Parse(state))
    ensures CheckDraw(state) <==> IsFull(Parse(state))
  {
    var g := Parse(state);
    if CheckDraw(state) {
      forall r, c | InBounds(r, c)
        ensures g[r][c] != Empty
      {
        assert g[0][c] != Empty;
      }
    }
  }

  /** A four in a row, once on the board, stays there. */
  lemma {:induction false} DropKeepsFour(g: Grid, column: int, color: char, t: char)
    requires IsBoard(g) && 0 <= column < Columns && t != Empty && HasFour(g, t)
    ensures HasFour(Drop(g, column, color), t)
  {
    var r, c :| FourStartsAt(g, r, c, t);
    var h := Drop(g, column, color);
    DropChangesOnlyLandingCell(g, column, color);
    KeptTokensKeepFour(g, h, r, c, t);
  }

  /** A board that keeps every token `t` of another keeps its fours of `t`. */
  lemma KeptTokensKeepFour(g: Grid, h: Grid, r: int, c: int, t: char)
    requires IsBoard(g) && IsBoard(h)
    requires forall i, j :: InBounds(i, j) && g[i][j] == t ==> h[i][j] == t
    requires FourStartsAt(g, r, c, t)
    ensures FourStartsAt(h, r, c, t)
  {
  }

  /** A token dropped into a column, as played in a game. */
  datatype Move = Move(column: int, color: char)

  predicate ValidColumns(moves: seq<Move>) {
    forall i :: 0 <= i < |moves| ==> 0 <= moves[i].column < Columns
  }

  /** The board after the moves, in order. */
  function PlayAll(g: Grid, moves: seq<Move>): (h: Grid)
    requires IsBoard(g) && ValidColumns(moves)
    ensures IsBoard(h)
    decreases |moves|
  {
    if moves == [] then g else PlayAll(Drop(g, moves[0].column, moves[0].color), moves[1..])
  }

  /** Any sequence of drops of real tokens leaves the columns without gaps. */
  lemma {:induction false} PlayAllKeepsGravity(g: Grid, moves: seq<Move>)
    requires IsBoard(g) && ValidColumns(moves) && Gravity(g)
    requires forall i :: 0 <= i < |moves| ==> moves[i].color != Empty
    ensures Gravity(PlayAll(g, moves))
    decreases |moves|
  {
    if moves != [] {
      DropPreservesGravity(g, moves[0].column, moves[0].color);
      PlayAllKeepsGravity(Drop(g, moves[0].column, moves[0].color), moves[1..]);
    }
  }

  function Max(a: int, b: int): int { if a < b then b else a }
  function Min(a: int, b: int): int { if a < b then a else b }
}
