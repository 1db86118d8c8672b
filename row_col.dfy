/**
 * convertRowColToIndex (core/formatting.go and langserver/util.go): a row and column of a
 * text, clamped into the text, as an offset into the text.
 */
module RowCol {
  import opened Text

  /** The row clamped to [0, lines - 1]. */
  function ClampRow(lines: seq<string>, row: int): (r: int)
    requires |lines| > 0
    ensures 0 <= r < |lines|
    ensures 0 <= row < |lines| ==> r == row
  {
    if row < 0 then 0 else if row >= |lines| then |lines| - 1 else row
  }

  /** The column clamped to [0, length of the line]. */
  function ClampCol(line: string, col: int): (c: int)
    ensures 0 <= c <= |line|
    ensures 0 <= col <= |line| ==> c == col
  {
    if col < 0 then 0 else if col > |line| then |line| else col
  }

  /** The offset convertRowColToIndex returns: the clamped row's start plus the clamped column. */
  function RowColIndex(s: string, row: int, col: int): int {
    var lines := Split(s, '\n');
    var r := ClampRow(lines, row);
    Offset(lines, r) + ClampCol(lines[r], col)
  }

  method ConvertRowColToIndex(s: string, row: int, col: int) returns (index: int)
    ensures index == RowColIndex(s, row, col)
  {
    var lines := Split(s, '\n');
    var r, c := row, col;
    if r < 0 {
      r := 0;
    } else if r >= |lines| {
      r := |lines| - 1;
    }
    if c < 0 {
      c := 0;
    } else if c > |lines[r]| {
      c := |lines[r]|;
    }
    index := 0;
    for i := 0 to r
      invariant index == Offset(lines, i)
    {
      // the line's length and its newline
      index := index + |lines[i]| + 1;
    }
    index := index + c;
  }

  /** The offset lies in [0, |s|]. */
  lemma RowColBounds(s: string, row: int, col: int)
    ensures 0 <= RowColIndex(s, row, col) <= |s|
  {
    var lines := Split(s, '\n');
    var r := ClampRow(lines, row);
    SplitTotal(s, '\n');
    OffsetMonotone(lines, r + 1, |lines|);
  }

  /** The c characters before the offset are the first c characters of the clamped row r. */
  lemma RowColInLine(s: string, row: int, col: int, lines: seq<string>, r: int, c: int)
    requires lines == Split(s, '\n') && r == ClampRow(lines, row) && c == ClampCol(lines[r], col)
    ensures RowColIndex(s, row, col) == Offset(lines, r) + c <= |s|
    ensures forall i :: 0 <= i < c ==> s[Offset(lines, r) + i] == lines[r][i]
  {
    RowPlaced(s, lines, r);
    forall i | 0 <= i < c
      ensures s[Offset(lines, r) + i] == lines[r][i]
    {
      assert s[Offset(lines, r)..Offset(lines, r) + |lines[r]|][i] == lines[r][i];
    }
  }

  /** Row r of the split lies in s at its offset. */
  lemma RowPlaced(s: string, lines: seq<string>, r: nat)
    requires lines == Split(s, '\n') && r < |lines|
    ensures Offset(lines, r) + |lines[r]| <= |s| && s[Offset(lines, r)..Offset(lines, r) + |lines[r]|] == lines[r]
  {
    SplitLayout(s, '\n', r);
  }

  /** (0, 0) is the start of the text; a row r > 0 at column 0 starts just after the r-th newline. */
  lemma RowColLineStart(s: string, row: int)
    ensures RowColIndex(s, 0, 0) == 0
    ensures 0 < row < |Split(s, '\n')| ==>
      0 < RowColIndex(s, row, 0) <= |s| && s[RowColIndex(s, row, 0) - 1] == '\n'
  {
    var lines := Split(s, '\n');
    if 0 < row < |lines| {
      SplitLayout(s, '\n', row);
      SplitTotal(s, '\n');
      OffsetMonotone(lines, 1, row);
    }
  }

  /** On a fixed row the offset does not decrease as the column grows. */
  lemma RowColMonotone(s: string, row: int, col1: int, col2: int)
    requires col1 <= col2
    ensures RowColIndex(s, row, col1) <= RowColIndex(s, row, col2)
  {
  }

  /** Rows outside the text are clamped: before it to the first row, after it to the last. */
  lemma RowColClamps(s: string, row: int, col: int)
    ensures row < 0 ==> RowColIndex(s, row, col) == RowColIndex(s, 0, col)
    ensures row >= |Split(s, '\n')| ==> RowColIndex(s, row, col) == RowColIndex(s, |Split(s, '\n')| - 1, col)
  {
  }
}
