/**
 * The two card variants side by side.  A dense card (Card) and a linked card
 * (Card2) made from the same random draws hold the same values; selecting the same
 * numbers on both keeps their selections equal and their winner flags equal.  The
 * one number they answer differently is the free value -1: the linked card finds
 * its centre cell, the dense card rejects it as out of range.  Both agree only
 * until the next Reset: the linked card's Reset leaves the line counts behind.
 */
module CrossVariant {
  import opened Grid
  import opened Cards
  import D = DenseCard
  import L = LinkedCard

  /**
   * A dense board and a linked card in step: a standard layout of values, the same
   * values and selections on both, the centre selected, and the linked card's counts,
   * flags and value lookup matching its cells.
   */
  ghost predicate Twins(b: D.Board, s: L.CardState) {
    && IsGrid(b)
    && L.Consistent(s)
    && L.LookupExact(s)
    && ValuesWellFormed(D.ValuesOfBoard(b))
    && D.ValuesOfBoard(b) == L.ValuesOf(s.cells)
    && D.MarksOfBoard(b) == L.MarksOf(s.cells)
    && b[2][2].selected
  }

  /** The two CreateRandom variants, given the same draws, build twins. */
  lemma CreatedTwins(picks: seq<nat>)
    requires CardPicks(picks)
    ensures Twins(D.DealtBoard(picks), L.CreatedRandom(picks))
  {
    D.DealtBoardLayout(picks);
    L.CreatedRandomConsistent(picks);
    L.CreatedRandomLayout(picks);
  }

  /** The linked card's flags are the wins on the selections the twins share. */
  lemma TwinFlags(b: D.Board, s: L.CardState)
    requires Twins(b, s)
    ensures s.horizontal == HorizontalWin(D.MarksOfBoard(b))
    ensures s.vertical == VerticalWin(D.MarksOfBoard(b))
    ensures s.diagonal == DiagonalWin(D.MarksOfBoard(b))
  {
    L.ConsistentFlagsAreWins(s);
    assert L.Flag(s, Horizontal) == Wins(L.MarksOf(s.cells), Horizontal);
    assert L.Flag(s, Vertical) == Wins(L.MarksOf(s.cells), Vertical);
    assert L.Flag(s, Diagonal) == Wins(L.MarksOf(s.cells), Diagonal);
  }

  /**
   * Selecting the same number on twins leaves twins.  Both report a hit for the
   * same numbers, except the free value -1, which only the linked card reports
   * (its centre cell holds -1 and is already selected, so nothing changes).
   */
  lemma SelectTwins(b: D.Board, s: L.CardState, ball: int)
    requires Twins(b, s)
    ensures Twins(D.SelectBoard(b, ball).0, L.AfterSelect(s, ball).0)
    ensures ball != Free ==> D.SelectBoard(b, ball).1 == L.AfterSelect(s, ball).1
    ensures ball == Free ==> !D.SelectBoard(b, ball).1 && L.AfterSelect(s, ball).1
  {
    var vals := D.ValuesOfBoard(b);
    var m := D.MarksOfBoard(b);
    var b', foundDense := D.SelectBoard(b, ball).0, D.SelectBoard(b, ball).1;
    var s', foundLinked := L.AfterSelect(s, ball).0, L.AfterSelect(s, ball).1;
    D.SelectBoardEffect(b, ball);
    D.SelectFindsCardValue(b, ball);
    L.SelectFindsCardValues(s, ball);
    L.SelectKeepsConsistent(s, ball);
    assert vals[2][2] == Free;
    assert L.ValuesOf(s.cells)[2][2] == Free;
    if r, c :| 0 <= r < 5 && 0 <= c < 5 && b[r][c].value == ball {
      assert vals[r][c] == ball && L.ValuesOf(s.cells)[r][c] == ball;
      assert s.cells[r][c].value == ball;
      assert L.MarksOf(s'.cells) == Mark(m, (r, c));
      if foundDense {
        var p :| OnGrid(p) && At(b, p).value == ball && D.MarksOfBoard(b') == Mark(m, p);
        assert At(vals, p) == At(vals, (r, c));
        ValuesUnique(vals, p, (r, c));
      } else {
        if (r, c) != Centre {
          ColumnOfValue(vals, r, c);
        }
        assert (r, c) == Centre;
        GridEq(Mark(m, (r, c)), m);
      }
    } else {
      assert !L.OnCard(L.ValuesOf(s.cells), ball);
    }
    assert D.MarksOfBoard(b')[2][2];
  }

  // ---------------------------------------------------------------------------
  // The same game on the card interface

  /** A dense view and a linked view in step, the dense flags following its board. */
  ghost predicate ViewTwins(v: CardView, w: CardView) {
    && v.DenseView? && w.LinkedView?
    && Twins(v.board, w.state)
    && FlagsFaithful(v)
  }

  /** Each ball called in turn, as a round calls it on one card. */
  function SelectAll(v: CardView, balls: seq<int>): (w: CardView)
    requires ViewOk(v)
    ensures ViewOk(w) && w.DenseView? == v.DenseView?
    decreases |balls|
  {
    if balls == [] then v else SelectAll(SelectView(v, balls[0]), balls[1..])
  }

  /** Two views showing the same three flags. */
  predicate SameFlags(v: CardView, w: CardView) {
    HorizontalOf(v) == HorizontalOf(w) && VerticalOf(v) == VerticalOf(w) && DiagonalOf(v) == DiagonalOf(w)
  }

  /** Twin views show the same three flags. */
  lemma ViewTwinsAgree(v: CardView, w: CardView)
    requires ViewTwins(v, w)
    ensures SameFlags(v, w) && IsWinner(v) == IsWinner(w)
  {
    TwinFlags(v.board, w.state);
  }

  /** Calling a ball on twin views leaves twin views. */
  lemma SelectViewTwins(v: CardView, w: CardView, ball: int)
    requires ViewTwins(v, w)
    ensures ViewTwins(SelectView(v, ball), SelectView(w, ball))
  {
    SelectTwins(v.board, w.state, ball);
    SelectViewMonotone(v, ball);
  }

  /** Twin cards with only the centre selected, as views with no flag set, are twin views. */
  lemma FreshViewTwins(b: D.Board, s: L.CardState)
    requires Twins(b, s) && D.MarksOfBoard(b) == CentreOnly()
    ensures ViewTwins(DenseView(b, false, false, false), LinkedView(s))
  {
    CentreOnlyWinsNothing(Horizontal);
    CentreOnlyWinsNothing(Vertical);
    CentreOnlyWinsNothing(Diagonal);
  }

  /** Card.CreateRandom's card as a view: the dealt board, no flag set. */
  function CreatedDense(picks: seq<nat>): (v: CardView)
    requires CardPicks(picks)
    ensures ViewOk(v) && v.DenseView? && !IsWinner(v)
  {
    DenseView(D.DealtBoard(picks), false, false, false)
  }

  /** Card2.CreateRandom's card as a view. */
  function CreatedLinked(picks: seq<nat>): (w: CardView)
    requires CardPicks(picks)
    ensures ViewOk(w) && w.LinkedView?
  {
    LinkedView(L.CreatedRandom(picks))
  }

  /** The cards CreateRandom makes from the same draws, as views, are twins. */
  lemma CreatedViewTwins(picks: seq<nat>)
    requires CardPicks(picks)
    ensures ViewTwins(CreatedDense(picks), CreatedLinked(picks))
  {
    var b, s := D.DealtBoard(picks), L.CreatedRandom(picks);
    CreatedTwins(picks);
    D.DealtBoardLayout(picks);
    FreshViewTwins(b, s);
  }

  /** Twin views stay twins, and so show the same flags, whatever balls are called. */
  lemma {:induction false} SelectAllTwins(v: CardView, w: CardView, balls: seq<int>)
    requires ViewTwins(v, w)
    ensures ViewTwins(SelectAll(v, balls), SelectAll(w, balls))
    ensures IsWinner(SelectAll(v, balls)) == IsWinner(SelectAll(w, balls))
    ensures SameFlags(SelectAll(v, balls), SelectAll(w, balls))
    decreases |balls|
  {
    if balls == [] {
      ViewTwinsAgree(v, w);
    } else {
      SelectViewTwins(v, w, balls[0]);
      SelectAllTwins(SelectView(v, balls[0]), SelectView(w, balls[0]), balls[1..]);
    }
  }

  /**
   * A dense and a linked card made from the same draws, called the same balls, are
   * winners in the same directions.
   */
  lemma SameDrawsSameWins(picks: seq<nat>, balls: seq<int>)
    requires CardPicks(picks)
    ensures SameFlags(SelectAll(CreatedDense(picks), balls), SelectAll(CreatedLinked(picks), balls))
  {
    CreatedViewTwins(picks);
    SelectAllTwins(CreatedDense(picks), CreatedLinked(picks), balls);
  }

  /** The free value: the dense card rejects it, the linked card reports its centre. */
  lemma FreeValueAnswers(picks: seq<nat>)
    requires CardPicks(picks)
    ensures !D.SelectBoard(D.DealtBoard(picks), Free).1
    ensures L.AfterSelect(L.CreatedRandom(picks), Free).1
  {
    CreatedTwins(picks);
    SelectTwins(D.DealtBoard(picks), L.CreatedRandom(picks), Free);
  }

  /** Through the interface, the same two cards give the two answers for the free value. */
  lemma FreeValueAnswersViews(picks: seq<nat>)
    requires CardPicks(picks)
    ensures !SelectFound(CreatedDense(picks), Free) && SelectFound(CreatedLinked(picks), Free)
  {
    FreeValueAnswers(picks);
  }

  // ---------------------------------------------------------------------------
  // After the next Reset

  /**
   * Reset breaks the step: on twins, the dense Reset gives a board with only the
   * centre selected, but the linked Reset leaves counts that no longer match the
   * selections, so the linked card is no longer consistent.
   */
  lemma ResetSplitsTwins(b: D.Board, s: L.CardState)
    requires Twins(b, s)
    ensures D.MarksOfBoard(D.ResetBoard(b)) == L.MarksOf(L.AfterReset(s).cells)
    ensures !L.Consistent(L.AfterReset(s))
  {
    D.ResetBoardEffect(b);
    L.ResetEffect(s);
    assert At(L.MarksOf(s.cells), Centre);
    L.SecondResetBreaksCounts(s);
  }

  /** On a standard dense card, the value of a cell other than the centre is found there, and only that cell is selected. */
  lemma DenseFinds(b: D.Board, r: int, c: int)
    requires IsGrid(b) && ValuesWellFormed(D.ValuesOfBoard(b)) && OnGrid((r, c)) && (r, c) != Centre
    ensures var (b', found) := D.SelectBoard(b, b[r][c].value);
      && found
      && D.MarksOfBoard(b') == Mark(D.MarksOfBoard(b), (r, c))
      && D.ValuesOfBoard(b') == D.ValuesOfBoard(b)
  {
    var vals := D.ValuesOfBoard(b);
    var number := b[r][c].value;
    D.SelectBoardEffect(b, number);
    D.SelectFindsCardValue(b, number);
    ColumnOfValue(vals, r, c);
    assert vals[r][c] == number;
    var p :| OnGrid(p) && At(b, p).value == number && D.MarksOfBoard(D.SelectBoard(b, number).0) == Mark(D.MarksOfBoard(b), p);
    assert At(vals, p) == At(vals, (r, c));
    ValuesUnique(vals, p, (r, c));
  }

  /** With an exact lookup, the linked card finds the value of any cell at that cell. */
  lemma LinkedFinds(s: L.CardState, r: int, c: int)
    requires L.WellFormed(s) && L.LookupExact(s) && OnGrid((r, c))
    ensures L.AfterSelect(s, s.cells[r][c].value) == (L.AfterSetCell(s, (r, c)), true)
    ensures L.LookupExact(L.AfterSetCell(s, (r, c)))
    ensures L.ValuesOf(L.AfterSetCell(s, (r, c)).cells) == L.ValuesOf(s.cells)
  {
    L.SelectFindsCardValues(s, s.cells[r][c].value);
  }

  /** Three balls called in turn. */
  lemma SelectAllThree(v: CardView, x: int, y: int, z: int)
    requires ViewOk(v)
    ensures SelectAll(v, [x, y, z]) == SelectView(SelectView(SelectView(v, x), y), z)
  {
    var v1 := SelectView(v, x);
    var v2 := SelectView(v1, y);
    assert [x, y, z][1..] == [y, z] && [y, z][1..] == [z] && [z][1..] == [];
    assert SelectAll(v2, [z]) == SelectView(v2, z);
    assert SelectAll(v1, [y, z]) == SelectAll(v2, [z]);
  }

  /** The selections in row 2 but for its last column, with the centre. */
  function RowTwoGap(): (m: Marks)
    ensures IsGrid(m)
  {
    Mark(Mark(Mark(CentreOnly(), (2, 0)), (2, 1)), (2, 3))
  }

  /** On a standard dense card, calling the value of a cell other than the centre selects that cell and sets the flags from the lines. */
  lemma DenseHit(v: CardView, r: int, c: int)
    requires v.DenseView? && IsGrid(v.board) && ValuesWellFormed(D.ValuesOfBoard(v.board))
    requires OnGrid((r, c)) && (r, c) != Centre
    ensures var w := SelectView(v, v.board[r][c].value);
      && w.DenseView?
      && D.MarksOfBoard(w.board) == Mark(D.MarksOfBoard(v.board), (r, c))
      && D.ValuesOfBoard(w.board) == D.ValuesOfBoard(v.board)
      && FlagsFaithful(w)
  {
    DenseFinds(v.board, r, c);
  }

  /** The dense card, Reset and then called the values of (2, 0), (2, 1) and (2, 3): those cells and the centre selected, no flag. */
  lemma DenseGap(b: D.Board)
    requires IsGrid(b) && ValuesWellFormed(D.ValuesOfBoard(b))
    ensures var vals := D.ValuesOfBoard(b);
      var v := SelectAll(ResetView(DenseView(b, false, false, false)), [vals[2][0], vals[2][1], vals[2][3]]);
      && !IsWinner(v)
      && D.MarksOfBoard(v.board) == RowTwoGap()
  {
    var vals := D.ValuesOfBoard(b);
    var v0 := ResetView(DenseView(b, false, false, false));
    assert v0.board == D.ResetBoard(b);
    D.ResetBoardEffect(b);
    GridEq(D.ValuesOfBoard(v0.board), vals);
    DenseHit(v0, 2, 0);
    var v1 := SelectView(v0, vals[2][0]);
    DenseHit(v1, 2, 1);
    var v2 := SelectView(v1, vals[2][1]);
    DenseHit(v2, 2, 3);
    var v3 := SelectView(v2, vals[2][3]);
    SelectAllThree(v0, vals[2][0], vals[2][1], vals[2][3]);
    GapNoWin(v3);
  }

  /** A dense view whose flags follow its board, with row 2 selected but for (2, 4) and nothing else, is no winner. */
  lemma GapNoWin(v: CardView)
    requires v.DenseView? && IsGrid(v.board) && FlagsFaithful(v) && D.MarksOfBoard(v.board) == RowTwoGap()
    ensures !IsWinner(v)
  {
    RowTwoGapWinsNothing(Horizontal);
    RowTwoGapWinsNothing(Vertical);
    RowTwoGapWinsNothing(Diagonal);
  }

  /** The linked card, Reset and then called the same values: the same selections, and the horizontal flag raised. */
  lemma LinkedGap(s: L.CardState)
    requires L.Consistent(s) && L.LookupExact(s) && L.MarksOf(s.cells) == CentreOnly()
    ensures var vals := L.ValuesOf(s.cells);
      var w := SelectAll(ResetView(LinkedView(s)), [vals[2][0], vals[2][1], vals[2][3]]);
      && HorizontalOf(w)
      && L.MarksOf(w.state.cells) == RowTwoGap()
  {
    var vals := L.ValuesOf(s.cells);
    var s0 := L.AfterReset(s);
    L.ResetEffect(s);
    LinkedFinds(s0, 2, 0);
    var s1 := L.AfterSetCell(s0, (2, 0));
    LinkedFinds(s1, 2, 1);
    var s2 := L.AfterSetCell(s1, (2, 1));
    LinkedFinds(s2, 2, 3);
    SelectAllThree(ResetView(LinkedView(s)), vals[2][0], vals[2][1], vals[2][3]);
    L.FalseHorizontalAfterReset(s);
  }

  /**
   * At the start of a round both kinds of card are Reset.  On twins with only the
   * centre selected (fresh from CreateRandom), calling the values in row 2 but for
   * the last column then makes the linked card a horizontal winner, while the
   * dense card, holding the same selections, is no winner at all.
   */
  lemma ThreeBallsSplitTwins(b: D.Board, s: L.CardState)
    requires Twins(b, s) && D.MarksOfBoard(b) == CentreOnly()
    ensures var vals := D.ValuesOfBoard(b);
      var balls := [vals[2][0], vals[2][1], vals[2][3]];
      var v := SelectAll(ResetView(DenseView(b, false, false, false)), balls);
      var w := SelectAll(ResetView(LinkedView(s)), balls);
      && HorizontalOf(w)
      && !IsWinner(v)
      && D.MarksOfBoard(v.board) == L.MarksOf(w.state.cells)
  {
    DenseGap(b);
    LinkedGap(s);
  }

  /**
   * The same for the cards CreateRandom makes from the same draws: once the round
   * has Reset them, the balls in row 2 but for its last column make the linked card
   * a winner and leave the dense card none.
   */
  lemma RoundStartSplitsTwins(picks: seq<nat>)
    requires CardPicks(picks)
    ensures var vals := DealtValues(picks);
      var balls := [vals[2][0], vals[2][1], vals[2][3]];
      && HorizontalOf(SelectAll(ResetView(CreatedLinked(picks)), balls))
      && !IsWinner(SelectAll(ResetView(CreatedDense(picks)), balls))
  {
    CreatedTwins(picks);
    D.DealtBoardLayout(picks);
    ThreeBallsSplitTwins(D.DealtBoard(picks), L.CreatedRandom(picks));
  }
}
