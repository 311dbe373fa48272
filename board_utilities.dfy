/** The user interface's conversion of a board state into a two-dimensional array of cells. */
module BoardUtilities {
  import opened Text

  /** The rows of a board string: the pieces between the ';' separators. */
  function Rows(boardString: string): (rows: seq<string>)
    ensures |rows| >= 1
  {
    Split(boardString, ';')
  }

  /**
   * The array is as high as the string has rows and as wide as its first
   * row; cell [i, j] is character j of row i, and the cells a shorter row
   * does not reach keep the default character '\0'. A row longer than the
   * first would index past the array's width.
   */
  method GetBoardArrayFromString(boardString: string) returns (boardArray: array2<char>)
    requires forall i :: 0 <= i < |Rows(boardString)| ==> |Rows(boardString)[i]| <= |Rows(boardString)[0]|
    ensures fresh(boardArray)
    ensures boardArray.Length0 == |Rows(boardString)| && boardArray.Length1 == |Rows(boardString)[0]|
    ensures forall i, j :: 0 <= i < boardArray.Length0 && 0 <= j < boardArray.Length1 ==>
      boardArray[i, j] == (if j < |Rows(boardString)[i]| then Rows(boardString)[i][j] else '\0')
  {
    var boardDoubleArray := Rows(boardString);
    boardArray := new char[|boardDoubleArray|, |boardDoubleArray[0]|]((i, j) => '\0');
    var i := 0;
    while i < |boardDoubleArray|
      invariant 0 <= i <= |boardDoubleArray|
      invariant forall r, c :: 0 <= r < i && 0 <= c < boardArray.Length1 ==>
        boardArray[r, c] == (if c < |boardDoubleArray[r]| then boardDoubleArray[r][c] else '\0')
      invariant forall r, c :: i <= r < boardArray.Length0 && 0 <= c < boardArray.Length1 ==> boardArray[r, c] == '\0'
    {
      var j := 0;
      while j < |boardDoubleArray[i]|
        invariant 0 <= j <= |boardDoubleArray[i]|
        invariant forall r, c :: 0 <= r < i && 0 <= c < boardArray.Length1 ==>
          boardArray[r, c] == (if c < |boardDoubleArray[r]| then boardDoubleArray[r][c] else '\0')
        invariant forall c :: 0 <= c < j ==> boardArray[i, c] == boardDoubleArray[i][c]
        invariant forall c :: j <= c < boardArray.Length1 ==> boardArray[i, c] == '\0'
        invariant forall r, c :: i < r < boardArray.Length0 && 0 <= c < boardArray.Length1 ==> boardArray[r, c] == '\0'
      {
        boardArray[i, j] := boardDoubleArray[i][j];
        j := j + 1;
      }
      i := i + 1;
    }
  }

  /** A 6 by 7 array of default characters '\0', not of the empty-cell character '0'. */
  method GetEmptyBoard() returns (board: array2<char>)
    ensures fresh(board)
    ensures board.Length0 == 6 && board.Length1 == 7
    ensures forall i, j :: 0 <= i < 6 && 0 <= j < 7 ==> board[i, j] == '\0'
  {
    board := new char[6, 7]((i, j) => '\0');
  }
}
