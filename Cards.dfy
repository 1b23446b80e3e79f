/**
 * The interface the round simulation sees (ICard): Reset, SelectNumber and the
 * three winner flags, for a card of either kind.  A card is a dense Card or a
 * linked Card2; its observable state is captured as a value (a CardView), and
 * the interface's operations are stated as functions of that value.
 */
module Cards {
  import opened Grid
  import D = DenseCard
  import L = LinkedCard

  /** A card of either kind. */
  datatype AnyCard = Dense(dense: D.Card) | Linked(linked: L.Card2)

  /** A card's state as a value: the dense card's board and flags, or the linked card's whole state. */
  datatype CardView =
    | DenseView(board: D.Board, horizontal: bool, vertical: bool, diagonal: bool)
    | LinkedView(state: L.CardState)

  /** The views the card operations are defined on. */
  ghost predicate ViewOk(v: CardView) {
    match v
    case DenseView(b, _, _, _) => IsGrid(b)
    case LinkedView(s) => L.WellFormed(s)
  }

  /** ICard.IsWinnerHorizontally. */
  function HorizontalOf(v: CardView): bool {
    match v
    case DenseView(_, h, _, _) => h
    case LinkedView(s) => s.horizontal
  }

  /** ICard.IsWinnerVertically. */
  function VerticalOf(v: CardView): bool {
    match v
    case DenseView(_, _, vt, _) => vt
    case LinkedView(s) => s.vertical
  }

  /** ICard.IsWinnerDiagonally. */
  function DiagonalOf(v: CardView): bool {
    match v
    case DenseView(_, _, _, d) => d
    case LinkedView(s) => s.diagonal
  }

  /** ICard.IsWinner: any of the three flags (Card.cs and Card2.cs define it alike). */
  predicate IsWinner(v: CardView) {
    HorizontalOf(v) || VerticalOf(v) || DiagonalOf(v)
  }

  /** ICard.Reset. */
  function ResetView(v: CardView): (w: CardView)
    requires ViewOk(v)
    ensures ViewOk(w) && !IsWinner(w)
  {
    match v
    case DenseView(b, _, _, _) => DenseView(D.ResetBoard(b), false, false, false)
    case LinkedView(s) => LinkedView(L.AfterReset(s))
  }

  /**
   * ICard.SelectNumber's effect on the card: on the dense card a hit recomputes the
   * three flags from the lines of selected entries and a miss changes nothing.
   */
  function SelectView(v: CardView, ball: int): (w: CardView)
    requires ViewOk(v)
    ensures ViewOk(w)
  {
    match v
    case DenseView(b, _, _, _) =>
      var (b', found) := D.SelectBoard(b, ball);
      var m := D.MarksOfBoard(b');
      if found then DenseView(b', HorizontalWin(m), VerticalWin(m), DiagonalWin(m)) else v
    case LinkedView(s) => LinkedView(L.AfterSelect(s, ball).0)
  }

  /** ICard.SelectNumber's answer: whether the card holds the number where it looks for it. */
  function SelectFound(v: CardView, ball: int): (found: bool)
    requires ViewOk(v)
    ensures v.DenseView? ==> (found <==> D.Locate(v.board, ball).Some?)
    ensures v.LinkedView? ==> (found <==> ball in v.state.lookup)
  {
    match v
    case DenseView(b, _, _, _) => D.SelectBoard(b, ball).1
    case LinkedView(s) => L.AfterSelect(s, ball).1
  }

  /** A dense card's flags agree with its lines of selected entries; a linked card's flags need nothing here. */
  ghost predicate FlagsFaithful(v: CardView)
    requires ViewOk(v)
  {
    match v
    case DenseView(b, h, vt, d) =>
      var m := D.MarksOfBoard(b);
      h == HorizontalWin(m) && vt == VerticalWin(m) && d == DiagonalWin(m)
    case LinkedView(_) => true
  }

  /** Reset leaves the card with no win and, on a dense card, flags that agree with the board. */
  lemma ResetViewFaithful(v: CardView)
    requires ViewOk(v)
    ensures FlagsFaithful(ResetView(v)) && !IsWinner(ResetView(v))
  {
    if v.DenseView? {
      D.ResetBoardEffect(v.board);
      CentreOnlyWinsNothing(Horizontal);
      CentreOnlyWinsNothing(Vertical);
      CentreOnlyWinsNothing(Diagonal);
    }
  }

  /**
   * Selecting a ball never takes a flag away, on either kind of card (on the dense
   * card because the flags agree with the board), and keeps the dense card's flags
   * in agreement with its board.
   */
  lemma SelectViewMonotone(v: CardView, ball: int)
    requires ViewOk(v) && FlagsFaithful(v)
    ensures FlagsFaithful(SelectView(v, ball))
    ensures HorizontalOf(v) ==> HorizontalOf(SelectView(v, ball))
    ensures VerticalOf(v) ==> VerticalOf(SelectView(v, ball))
    ensures DiagonalOf(v) ==> DiagonalOf(SelectView(v, ball))
  {
    match v
    case DenseView(b, _, _, _) =>
      D.SelectBoardMonotone(b, ball, Horizontal);
      D.SelectBoardMonotone(b, ball, Vertical);
      D.SelectBoardMonotone(b, ball, Diagonal);
    case LinkedView(s) =>
      L.SelectNeverClearsFlags(s, ball);
      var t := L.AfterSelect(s, ball).0;
      assert L.Flag(s, Horizontal) ==> L.Flag(t, Horizontal);
      assert L.Flag(s, Vertical) ==> L.Flag(t, Vertical);
      assert L.Flag(s, Diagonal) ==> L.Flag(t, Diagonal);
  }

  // ---------------------------------------------------------------------------
  // The card objects behind the interface

  /** The objects a card's operations may change. */
  function Footprint(a: AnyCard): set<object> {
    match a
    case Dense(c) => {c, c.board}
    case Linked(l) => {l}
  }

  ghost predicate CardOk(a: AnyCard)
    reads Footprint(a)
  {
    match a
    case Dense(c) => c.Valid()
    case Linked(l) => l.Valid()
  }

  /** The card's state as a value. */
  ghost function View(a: AnyCard): (v: CardView)
    requires CardOk(a)
    reads Footprint(a)
    ensures ViewOk(v)
  {
    match a
    case Dense(c) => DenseView(c.Contents(), c.horizontal, c.vertical, c.diagonal)
    case Linked(l) => LinkedView(l.State())
  }

  /** ICard.IsWinnerHorizontally, read from the object. */
  function IsWinnerHorizontally(a: AnyCard): (h: bool)
    reads Footprint(a)
    ensures CardOk(a) ==> h == HorizontalOf(View(a))
  {
    match a
    case Dense(c) => c.horizontal
    case Linked(l) => l.horizontal
  }

  /** ICard.IsWinnerVertically, read from the object. */
  function IsWinnerVertically(a: AnyCard): (vt: bool)
    reads Footprint(a)
    ensures CardOk(a) ==> vt == VerticalOf(View(a))
  {
    match a
    case Dense(c) => c.vertical
    case Linked(l) => l.vertical
  }

  /** ICard.IsWinnerDiagonally, read from the object. */
  function IsWinnerDiagonally(a: AnyCard): (d: bool)
    reads Footprint(a)
    ensures CardOk(a) ==> d == DiagonalOf(View(a))
  {
    match a
    case Dense(c) => c.diagonal
    case Linked(l) => l.diagonal
  }

  /** ICard.IsWinner, read from the object. */
  function IsWinnerCard(a: AnyCard): (w: bool)
    reads Footprint(a)
    ensures CardOk(a) ==> w == IsWinner(View(a))
  {
    match a
    case Dense(c) => c.IsWinner()
    case Linked(l) => l.IsWinner()
  }

  /** ICard.Reset, dispatched to the card's own Reset. */
  method ResetCard(a: AnyCard)
    requires CardOk(a)
    modifies Footprint(a)
    ensures CardOk(a) && View(a) == ResetView(old(View(a)))
  {
    match a
    case Dense(c) => c.Reset();
    case Linked(l) => l.Reset();
  }

  /** ICard.SelectNumber, dispatched to the card's own SelectNumber. */
  method SelectCard(a: AnyCard, ball: int) returns (found: bool)
    requires CardOk(a)
    modifies Footprint(a)
    ensures CardOk(a) && View(a) == SelectView(old(View(a)), ball)
    ensures found == SelectFound(old(View(a)), ball)
  {
    match a
    case Dense(c) =>
      found := c.SelectNumber(ball);
    case Linked(l) =>
      found := l.SelectNumber(ball);
  }
}
