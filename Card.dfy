/**
 * The dense card: a 5x5 board of (value, selected) entries and three winner flags.
 * Selecting a number searches only the column its range belongs to, and every hit
 * rescans all rows, all columns and both diagonals to recompute the flags.
 */
module DenseCard {
  import opened Draw
  import opened Grid

  datatype Option<T> = None | Some(value: T)

  /** One board entry: the value and whether it has been selected. */
  datatype Entry = Entry(value: int, selected: bool)

  type Board = seq<seq<Entry>>

  /** Card.IsValid: a ball number, 1 to 75. */
  predicate IsValid(number: int) {
    1 <= number <= 75
  }

  /** The valid numbers are exactly the 75 balls a round draws from. */
  lemma ValidIffBall(number: int)
    ensures IsValid(number) <==> number in Range(1, 75)
  {
    RangeMembers(1, 75);
  }

  /** Card.GetColumn: the column whose 15-number range holds the number, if it is a ball number. */
  function GetColumn(number: int): (column: Option<int>)
    ensures column.Some? <==> IsValid(number)
    ensures column.Some? ==> 0 <= column.value < 5 && 15 * column.value + 1 <= number <= 15 * column.value + 15
  {
    if IsValid(number) then Some((number - 1) / 15) else None
  }

  function MarksOfBoard(b: Board): (m: Marks)
    requires IsGrid(b)
    ensures IsGrid(m) && forall r, c :: 0 <= r < 5 && 0 <= c < 5 ==> m[r][c] == b[r][c].selected
  {
    seq(5, r requires 0 <= r < 5 => seq(5, c requires 0 <= c < 5 => b[r][c].selected))
  }

  function ValuesOfBoard(b: Board): (vals: seq<seq<int>>)
    requires IsGrid(b)
    ensures IsGrid(vals) && forall r, c :: 0 <= r < 5 && 0 <= c < 5 ==> vals[r][c] == b[r][c].value
  {
    seq(5, r requires 0 <= r < 5 => seq(5, c requires 0 <= c < 5 => b[r][c].value))
  }

  // ---------------------------------------------------------------------------
  // The operations on board values

  /** The board of a new card before its Reset: every entry the default (0, false). */
  function BlankBoard(): (b: Board)
    ensures IsGrid(b)
  {
    seq(5, r => seq(5, c => Entry(0, false)))
  }

  /** Card.Reset's board: every selection cleared, values kept, then (-1, true) at the centre. */
  function ResetBoard(b: Board): (b': Board)
    requires IsGrid(b)
    ensures IsGrid(b')
  {
    seq(5, r requires 0 <= r < 5 => seq(5, c requires 0 <= c < 5 =>
      if (r, c) == Centre then Entry(Free, true) else Entry(b[r][c].value, false)))
  }

  /** The first row at or after `from` whose entry in column col holds number. */
  function FindRow(b: Board, col: int, number: int, from: nat): (row: Option<int>)
    requires IsGrid(b) && 0 <= col < 5 && from <= 5
    ensures row.Some? ==> from <= row.value < 5 && b[row.value][col].value == number
    ensures row.Some? ==> forall r :: from <= r < row.value ==> b[r][col].value != number
    ensures row.None? ==> forall r :: from <= r < 5 ==> b[r][col].value != number
    decreases 5 - from
  {
    if from == 5 then None
    else if b[from][col].value == number then Some(from)
    else FindRow(b, col, number, from + 1)
  }

  /** Where SelectNumber and GetCell look for a number: the first matching row of its column. */
  function Locate(b: Board, number: int): (p: Option<Pos>)
    requires IsGrid(b)
    ensures p.Some? ==> IsValid(number) && OnGrid(p.value) && p.value.1 == (number - 1) / 15
    ensures p.Some? ==> b[p.value.0][p.value.1].value == number
    ensures p.None? ==> !IsValid(number) || forall r :: 0 <= r < 5 ==> b[r][(number - 1) / 15].value != number
  {
    match GetColumn(number)
    case None => None
    case Some(col) =>
      match FindRow(b, col, number, 0)
      case None => None
      case Some(row) => Some((row, col))
  }

  /** Card.SelectNumber's effect on the board, and its result. */
  function SelectBoard(b: Board, number: int): (res: (Board, bool))
    requires IsGrid(b)
    ensures IsGrid(res.0)
  {
    match Locate(b, number)
    case None => (b, false)
    case Some(p) => (Put(b, p, At(b, p).(selected := true)), true)
  }

  /** Card.GetCell: the entry SelectNumber would select, if any. */
  function CellFor(b: Board, number: int): (cell: Option<Entry>)
    requires IsGrid(b)
    ensures cell.Some? <==> SelectBoard(b, number).1
    ensures cell.Some? ==> cell.value.value == number
    ensures cell.Some? ==> Locate(b, number).Some? && cell.value == At(b, Locate(b, number).value)
  {
    match Locate(b, number)
    case None => None
    case Some(p) => Some(At(b, p))
  }

  /** The board Card.CreateRandom leaves: the column draws, unselected, and (-1, true) at the centre. */
  function DealtBoard(picks: seq<nat>): (b: Board)
    requires CardPicks(picks)
    ensures IsGrid(b)
  {
    seq(5, r requires 0 <= r < 5 => seq(5, c requires 0 <= c < 5 =>
      if (r, c) == Centre then Entry(Free, true) else Entry(ColumnDraw(picks, c)[r], false)))
  }

  // ---------------------------------------------------------------------------
  // Properties

  /** Reset keeps every value except the centre's, selects only the centre, and is idempotent. */
  lemma ResetBoardEffect(b: Board)
    requires IsGrid(b)
    ensures MarksOfBoard(ResetBoard(b)) == CentreOnly()
    ensures forall r, c :: 0 <= r < 5 && 0 <= c < 5 && (r, c) != Centre ==> ResetBoard(b)[r][c].value == b[r][c].value
    ensures ResetBoard(b)[2][2] == Entry(Free, true)
    ensures ResetBoard(ResetBoard(b)) == ResetBoard(b)
  {
    GridEq(MarksOfBoard(ResetBoard(b)), CentreOnly());
    GridEq(ResetBoard(ResetBoard(b)), ResetBoard(b));
  }

  /**
   * SelectNumber finds a number exactly when it is a ball number held in its own
   * column; then it selects that entry only, and it never changes a value.
   */
  lemma SelectBoardEffect(b: Board, number: int)
    requires IsGrid(b)
    ensures SelectBoard(b, number).1 <==>
      IsValid(number) && exists r :: 0 <= r < 5 && b[r][(number - 1) / 15].value == number
    ensures !SelectBoard(b, number).1 ==> SelectBoard(b, number).0 == b
    ensures SelectBoard(b, number).1 ==> exists p :: (OnGrid(p) && At(b, p).value == number
      && MarksOfBoard(SelectBoard(b, number).0) == Mark(MarksOfBoard(b), p))
    ensures ValuesOfBoard(SelectBoard(b, number).0) == ValuesOfBoard(b)
  {
    var res := SelectBoard(b, number);
    match Locate(b, number)
    case None =>
    case Some(p) =>
      GridEq(MarksOfBoard(res.0), Mark(MarksOfBoard(b), p));
      GridEq(ValuesOfBoard(res.0), ValuesOfBoard(b));
  }

  /** A selection only adds selected entries, so it never takes a win away. */
  lemma SelectBoardMonotone(b: Board, number: int, kind: LineKind)
    requires IsGrid(b)
    ensures Wins(MarksOfBoard(b), kind) ==> Wins(MarksOfBoard(SelectBoard(b, number).0), kind)
  {
    SelectBoardEffect(b, number);
    var m := MarksOfBoard(b);
    var m' := MarksOfBoard(SelectBoard(b, number).0);
    if SelectBoard(b, number).1 {
      var p :| OnGrid(p) && At(b, p).value == number && m' == Mark(m, p);
    }
    WinsMonotone(m, m', kind);
  }

  /** The dealt board: the column layout of the random cards, with only the centre selected. */
  lemma DealtBoardLayout(picks: seq<nat>)
    requires CardPicks(picks)
    ensures ValuesOfBoard(DealtBoard(picks)) == DealtValues(picks)
    ensures MarksOfBoard(DealtBoard(picks)) == CentreOnly()
    ensures ValuesWellFormed(DealtValues(picks))
  {
    GridEq(ValuesOfBoard(DealtBoard(picks)), DealtValues(picks));
    GridEq(MarksOfBoard(DealtBoard(picks)), CentreOnly());
    DealtValuesWellFormed(picks);
  }

  /** On a standard card a ball number can only sit in column (number - 1) / 15. */
  lemma ValueInItsColumn(b: Board, number: int, r: int, c: int)
    requires IsGrid(b) && ValuesWellFormed(ValuesOfBoard(b)) && IsValid(number)
    requires 0 <= r < 5 && 0 <= c < 5 && b[r][c].value == number
    ensures c == (number - 1) / 15
  {
    var vals := ValuesOfBoard(b);
    assert vals[r][c] == number;
    ColumnOfValue(vals, r, c);
  }

  /** On a standard card a ball number is found exactly when some entry holds it. */
  lemma SelectFindsCardValue(b: Board, number: int)
    requires IsGrid(b) && ValuesWellFormed(ValuesOfBoard(b))
    ensures SelectBoard(b, number).1 <==> IsValid(number) && exists r, c :: 0 <= r < 5 && 0 <= c < 5 && b[r][c].value == number
  {
    SelectBoardEffect(b, number);
    var col := (number - 1) / 15;
    if SelectBoard(b, number).1 {
      var r :| 0 <= r < 5 && b[r][col].value == number;
      assert 0 <= col < 5;
    }
    if IsValid(number) && exists r, c :: 0 <= r < 5 && 0 <= c < 5 && b[r][c].value == number {
      var r, c :| 0 <= r < 5 && 0 <= c < 5 && b[r][c].value == number;
      ValueInItsColumn(b, number, r, c);
    }
  }

  /** The row scan of CheckWinningCard: stopping at the first full row decides a horizontal win. */
  lemma RowScan(m: Marks, found: bool, row: int)
    requires IsGrid(m) && 0 <= row <= 5 && (found || row == 5)
    requires found ==> 0 < row && RowFull(m, row - 1)
    requires !found ==> forall r :: 0 <= r < row ==> !RowFull(m, r)
    ensures found == HorizontalWin(m)
  {
  }

  /** The column scan of CheckWinningCard: stopping at the first full column decides a vertical win. */
  lemma ColumnScan(m: Marks, found: bool, col: int)
    requires IsGrid(m) && 0 <= col <= 5 && (found || col == 5)
    requires found ==> 0 < col && ColumnFull(m, col - 1)
    requires !found ==> forall c :: 0 <= c < col ==> !ColumnFull(m, c)
    ensures found == VerticalWin(m)
  {
  }

  // ---------------------------------------------------------------------------
  // The card object

  class Card {
    /** Board: entry [row, col]. */
    const board: array2<Entry>
    var horizontal: bool
    var vertical: bool
    var diagonal: bool

    ghost predicate Valid() {
      board.Length0 == 5 && board.Length1 == 5
    }

    /** The board's entries as a value. */
    ghost function Contents(): (b: Board)
      requires Valid()
      reads board
      ensures IsGrid(b) && forall r, c :: 0 <= r < 5 && 0 <= c < 5 ==> b[r][c] == board[r, c]
    {
      seq(5, r requires 0 <= r < 5 reads board => seq(5, c requires 0 <= c < 5 reads board => board[r, c]))
    }

    /** The three flags agree with the lines of selected entries. */
    ghost predicate FlagsAgree()
      requires Valid()
      reads this, board
    {
      var m := MarksOfBoard(Contents());
      horizontal == Wins(m, Horizontal) && vertical == Wins(m, Vertical) && diagonal == Wins(m, Diagonal)
    }

    /** Any of the three flags. */
    function IsWinner(): bool
      reads this
    {
      horizontal || vertical || diagonal
    }

    /** A board of (0, false) entries, then Reset. */
    constructor()
      ensures Valid() && fresh(board)
      ensures Contents() == ResetBoard(BlankBoard())
      ensures !horizontal && !vertical && !diagonal
    {
      board := new Entry[5, 5]((r, c) => Entry(0, false));
      new;
      Reset();
      GridEq(Contents(), ResetBoard(BlankBoard()));
    }

    /** Card.Reset. */
    method Reset()
      requires Valid()
      modifies this, board
      ensures Valid() && Contents() == ResetBoard(old(Contents()))
      ensures !horizontal && !vertical && !diagonal
    {
      ghost var b0: Board := Contents();
      for row := 0 to 5
        invariant forall r, c :: 0 <= r < 5 && 0 <= c < 5 ==>
          board[r, c] == if r < row then Entry(b0[r][c].value, false) else b0[r][c]
      {
        for col := 0 to 5
          invariant forall r, c :: 0 <= r < 5 && 0 <= c < 5 ==>
            board[r, c] == if r < row || (r == row && c < col) then Entry(b0[r][c].value, false) else b0[r][c]
        {
          board[row, col] := Entry(board[row, col].value, false);
        }
      }
      board[2, 2] := Entry(Free, true);
      horizontal, vertical, diagonal := false, false, false;
      GridEq(Contents(), ResetBoard(b0));
    }

    /**
     * Card.SelectNumber: in the number's column, the first entry holding it is
     * selected and the flags are recomputed; nothing happens for any other number.
     */
    method SelectNumber(number: int) returns (selected: bool)
      requires Valid()
      modifies this, board
      ensures Valid()
      ensures (Contents(), selected) == SelectBoard(old(Contents()), number)
      ensures selected ==> FlagsAgree()
      ensures !selected ==> horizontal == old(horizontal) && vertical == old(vertical) && diagonal == old(diagonal)
    {
      ghost var b0: Board := Contents();
      selected := false;
      var column := GetColumn(number);
      if column.Some? {
        var col := column.value;
        var row := 0;
        while row < 5
          invariant 0 <= row <= 5 && Contents() == b0 && !selected
          invariant FindRow(b0, col, number, 0) == FindRow(b0, col, number, row)
        {
          if board[row, col].value == number {
            assert Locate(b0, number) == Some((row, col));
            board[row, col] := board[row, col].(selected := true);
            selected := true;
            GridEq(Contents(), SelectBoard(b0, number).0);
            CheckWinningCard();
            return;
          }
          row := row + 1;
        }
        assert Locate(b0, number) == None;
      }
    }

    /** Card.GetCell: the entry SelectNumber would select, without changing anything. */
    method GetCell(number: int) returns (cell: Option<Entry>)
      requires Valid()
      ensures cell == CellFor(Contents(), number)
    {
      ghost var b: Board := Contents();
      cell := None;
      var column := GetColumn(number);
      if column.Some? {
        var col := column.value;
        var row := 0;
        while row < 5
          invariant 0 <= row <= 5 && cell == None
          invariant FindRow(b, col, number, 0) == FindRow(b, col, number, row)
        {
          if board[row, col].value == number {
            cell := Some(board[row, col]);
            break;
          }
          row := row + 1;
        }
      }
    }

    /**
     * Card.CheckWinningCard: scans rows, columns and both diagonals and sets the three
     * flags; the three scans are factored into ScanRows, ScanColumns and ScanDiagonals.
     */
    method CheckWinningCard()
      requires Valid()
      modifies this
      ensures FlagsAgree()
    {
      ghost var m: Marks := MarksOfBoard(Contents());
      var isWinnerHorizontally := ScanRows();
      var isWinnerVertically := ScanColumns();
      var isWinnerDiagonally := ScanDiagonals();
      horizontal := isWinnerHorizontally;
      vertical := isWinnerVertically;
      diagonal := isWinnerDiagonally;
      assert m == MarksOfBoard(Contents());
    }

    /** The row scan: stops at the first row whose five entries are all selected. */
    method ScanRows() returns (isWinnerHorizontally: bool)
      requires Valid()
      ensures isWinnerHorizontally == HorizontalWin(MarksOfBoard(Contents()))
    {
      ghost var m: Marks := MarksOfBoard(Contents());
      isWinnerHorizontally := false;
      var row := 0;
      while isWinnerHorizontally == false && row < 5
        invariant 0 <= row <= 5
        invariant isWinnerHorizontally ==> 0 < row && RowFull(m, row - 1)
        invariant !isWinnerHorizontally ==> forall r :: 0 <= r < row ==> !RowFull(m, r)
      {
        var rowIsSelected := true;
        for col := 0 to 5
          invariant rowIsSelected == forall c :: 0 <= c < col ==> m[row][c]
        {
          rowIsSelected := board[row, col].selected && rowIsSelected;
        }
        assert rowIsSelected == RowFull(m, row);
        isWinnerHorizontally := rowIsSelected;
        row := row + 1;
      }
      RowScan(m, isWinnerHorizontally, row);
    }

    /** The column scan: stops at the first column whose five entries are all selected. */
    method ScanColumns() returns (isWinnerVertically: bool)
      requires Valid()
      ensures isWinnerVertically == VerticalWin(MarksOfBoard(Contents()))
    {
      ghost var m: Marks := MarksOfBoard(Contents());
      isWinnerVertically := false;
      var col := 0;
      while isWinnerVertically == false && col < 5
        invariant 0 <= col <= 5
        invariant isWinnerVertically ==> 0 < col && ColumnFull(m, col - 1)
        invariant !isWinnerVertically ==> forall c :: 0 <= c < col ==> !ColumnFull(m, c)
      {
        var colIsSelected := true;
        for row := 0 to 5
          invariant colIsSelected == forall r :: 0 <= r < row ==> m[r][col]
        {
          colIsSelected := board[row, col].selected && colIsSelected;
        }
        assert colIsSelected == ColumnFull(m, col);
        isWinnerVertically := colIsSelected;
        col := col + 1;
      }
      ColumnScan(m, isWinnerVertically, col);
    }

    /** The diagonal scan: both diagonals in one pass. */
    method ScanDiagonals() returns (isWinnerDiagonally: bool)
      requires Valid()
      ensures isWinnerDiagonally == DiagonalWin(MarksOfBoard(Contents()))
    {
      ghost var m: Marks := MarksOfBoard(Contents());
      var diag1 := true;
      var diag2 := true;
      for i := 0 to 5
        invariant diag1 == forall k :: 0 <= k < i ==> m[k][k]
        invariant diag2 == forall k :: 0 <= k < i ==> m[k][4 - k]
      {
        diag1 := board[i, i].selected && diag1;
        diag2 := board[i, 4 - i].selected && diag2;
      }
      assert diag1 == MainDiagonalFull(m) && diag2 == AntiDiagonalFull(m);
      isWinnerDiagonally := diag1 || diag2;
    }

    /**
     * Card.CreateRandom: each column's five values drawn from its 15 candidates, the
     * oracle giving the index of each draw, with (-1, true) written at the centre
     * after every column.
     */
    static method CreateRandom(picks: seq<nat>) returns (card: Card)
      requires CardPicks(picks)
      ensures fresh(card) && fresh(card.board) && card.Valid()
      ensures card.Contents() == DealtBoard(picks) && card.FlagsAgree()
      ensures !card.horizontal && !card.vertical && !card.diagonal
    {
      card := new Card();
      for col := 0 to 5
        invariant card.Valid() && !card.horizontal && !card.vertical && !card.diagonal
        invariant forall r, c :: 0 <= r < 5 && 0 <= c < col ==>
          card.board[r, c] == DealtBoard(picks)[r][c]
        invariant card.board[2, 2] == Entry(Free, true)
      {
        card.SetColumn(picks, col);
        card.board[2, 2] := Entry(Free, true);
      }
      GridEq(card.Contents(), DealtBoard(picks));
      DealtBoardLayout(picks);
      CentreOnlyWinsNothing(Horizontal);
      CentreOnlyWinsNothing(Vertical);
      CentreOnlyWinsNothing(Diagonal);
    }

    /** One pass of CreateRandom's outer loop: column col's five draws from its 15 candidates, row by row. */
    method SetColumn(picks: seq<nat>, col: int)
      requires Valid() && CardPicks(picks) && 0 <= col < 5
      modifies board
      ensures forall r, c :: 0 <= r < 5 && 0 <= c < 5 ==>
        board[r, c] == if c == col then Entry(ColumnDraw(picks, col)[r], false) else old(board[r, c])
    {
      ghost var column := ColumnDraw(picks, col);
      ghost var colPicks := picks[5 * col..5 * col + 5];
      var numsInCol := ColumnPool(col);
      assert ValidPicks(15, colPicks);
      assert column[0..] == column;
      for row := 0 to 5
        invariant |numsInCol| == 15 - row && ValidPicks(|numsInCol|, colPicks[row..])
        invariant Deal(numsInCol, colPicks[row..]) == column[row..]
        invariant forall r, c :: 0 <= r < 5 && 0 <= c < 5 ==>
          board[r, c] == if c == col && r < row then Entry(column[r], false) else old(board[r, c])
      {
        DropStep(colPicks, row);
        DealNext(numsInCol, colPicks[row..], column, row);
        var index := picks[5 * col + row];
        assert index == colPicks[row];
        var value := numsInCol[index];
        numsInCol := RemoveAt(numsInCol, index);
        board[row, col] := Entry(value, false);
      }
    }
  }
}
