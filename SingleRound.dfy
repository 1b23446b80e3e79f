/**
 * One round of the simulation (SingleRound): every card is reset, the 75 balls are
 * drawn in a random order, and balls are called one at a time, each on every card,
 * until after some ball at least one card is a winner; the round then counts how
 * many of those winners won horizontally, vertically and diagonally.
 *
 * The per-card work the source spreads over Parallel.ForEach is done card by card;
 * the cards share no state, so the order does not matter.
 */
module Round {
  import opened Draw
  import opened Cards

  // ---------------------------------------------------------------------------
  // The round on card states

  /** Every state is one the card operations are defined on. */
  ghost predicate AllOk(vs: seq<CardView>) {
    forall i :: 0 <= i < |vs| ==> ViewOk(vs[i])
  }

  /** Reset on every card. */
  ghost function ResetViews(vs: seq<CardView>): (ws: seq<CardView>)
    requires AllOk(vs)
    ensures |ws| == |vs| && AllOk(ws)
    ensures forall i :: 0 <= i < |vs| ==> ws[i] == ResetView(vs[i])
  {
    seq(|vs|, i requires 0 <= i < |vs| && ViewOk(vs[i]) => ResetView(vs[i]))
  }

  /** One ball called on every card. */
  ghost function SelectViews(vs: seq<CardView>, ball: int): (ws: seq<CardView>)
    requires AllOk(vs)
    ensures |ws| == |vs| && AllOk(ws)
    ensures forall i :: 0 <= i < |vs| ==> ws[i] == SelectView(vs[i], ball)
  {
    seq(|vs|, i requires 0 <= i < |vs| && ViewOk(vs[i]) => SelectView(vs[i], ball))
  }

  /** The positions, in order, of the winners among the first n cards: the `winners` list of a ball. */
  function WinnerIndices(vs: seq<CardView>, n: nat): (w: seq<nat>)
    requires n <= |vs|
    ensures forall k :: 0 <= k < |w| ==> w[k] < n
  {
    if n == 0 then []
    else WinnerIndices(vs, n - 1) + if IsWinner(vs[n - 1]) then [n - 1] else []
  }

  /** The three counts over the listed cards: how many of them have each flag set. */
  function Tally(vs: seq<CardView>, w: seq<nat>): (t: (int, int, int))
    requires forall k :: 0 <= k < |w| ==> w[k] < |vs|
  {
    if w == [] then (0, 0, 0)
    else
      var t := Tally(vs, w[..|w| - 1]);
      var v := vs[w[|w| - 1]];
      (t.0 + (if HorizontalOf(v) then 1 else 0),
       t.1 + (if VerticalOf(v) then 1 else 0),
       t.2 + (if DiagonalOf(v) then 1 else 0))
  }

  /**
   * The balls called from the given states on: after each ball, if some card is a
   * winner the round stops and tallies the winners; if the balls run out, the
   * tally is (0, 0, 0).  The result is the cards' final states and the tally.
   */
  ghost function Play(vs: seq<CardView>, balls: seq<int>): (res: (seq<CardView>, (int, int, int)))
    requires AllOk(vs)
    ensures |res.0| == |vs| && AllOk(res.0)
    decreases |balls|
  {
    if balls == [] then (vs, (0, 0, 0))
    else
      var next := SelectViews(vs, balls[0]);
      var w := WinnerIndices(next, |next|);
      if |w| > 0 then (next, Tally(next, w)) else Play(next, balls[1..])
  }

  /** SingleRound.DoRound on card states: every card reset, then the balls played. */
  ghost function RoundResult(vs: seq<CardView>, balls: seq<int>): (res: (seq<CardView>, (int, int, int)))
    requires AllOk(vs)
    ensures |res.0| == |vs| && AllOk(res.0)
  {
    Play(ResetViews(vs), balls)
  }

  // ---------------------------------------------------------------------------
  // Properties of the round

  /** Play after its first ball. */
  lemma PlayFirst(vs: seq<CardView>, balls: seq<int>)
    requires AllOk(vs) && balls != []
    ensures var next := SelectViews(vs, balls[0]);
      var w := WinnerIndices(next, |next|);
      Play(vs, balls) == if |w| > 0 then (next, Tally(next, w)) else Play(next, balls[1..])
  {
  }

  /** The winner list holds only winning cards among the first n, each once, in order. */
  lemma {:induction false} WinnerIndicesSound(vs: seq<CardView>, n: nat)
    requires n <= |vs|
    ensures |WinnerIndices(vs, n)| <= n
    ensures forall k :: 0 <= k < |WinnerIndices(vs, n)| ==> IsWinner(vs[WinnerIndices(vs, n)[k]])
    ensures forall k1, k2 :: 0 <= k1 < k2 < |WinnerIndices(vs, n)| ==>
      WinnerIndices(vs, n)[k1] < WinnerIndices(vs, n)[k2]
  {
    if n > 0 {
      WinnerIndicesSound(vs, n - 1);
      var prev := WinnerIndices(vs, n - 1);
      if IsWinner(vs[n - 1]) {
        assert WinnerIndices(vs, n) == prev + [n - 1];
      } else {
        assert WinnerIndices(vs, n) == prev;
      }
    }
  }

  /** Every winning card among the first n is on the winner list, which is empty exactly when none wins. */
  lemma {:induction false} WinnerIndicesComplete(vs: seq<CardView>, n: nat)
    requires n <= |vs|
    ensures forall i :: 0 <= i < n && IsWinner(vs[i]) ==> i in WinnerIndices(vs, n)
    ensures WinnerIndices(vs, n) == [] <==> forall i :: 0 <= i < n ==> !IsWinner(vs[i])
  {
    if n > 0 {
      WinnerIndicesComplete(vs, n - 1);
      var prev := WinnerIndices(vs, n - 1);
      if IsWinner(vs[n - 1]) {
        assert WinnerIndices(vs, n) == prev + [n - 1];
        assert forall x :: x in prev ==> x in WinnerIndices(vs, n);
      } else {
        assert WinnerIndices(vs, n) == prev;
      }
    }
  }

  /** Each count is at most the number of winners, and every winner is counted at least once. */
  lemma {:induction false} TallyBounds(vs: seq<CardView>, w: seq<nat>)
    requires forall k :: 0 <= k < |w| ==> w[k] < |vs| && IsWinner(vs[w[k]])
    ensures var t := Tally(vs, w);
      && 0 <= t.0 <= |w| && 0 <= t.1 <= |w| && 0 <= t.2 <= |w|
      && t.0 + t.1 + t.2 >= |w|
  {
    if w != [] {
      TallyBounds(vs, w[..|w| - 1]);
    }
  }

  /**
   * Starting from states without a winner, the round's tally is (0, 0, 0) exactly
   * when no card ends as a winner; each count is at most the number of cards; and
   * the counts add up to at least the number of winners.
   */
  lemma {:induction false} PlayTally(vs: seq<CardView>, balls: seq<int>)
    requires AllOk(vs) && forall i :: 0 <= i < |vs| ==> !IsWinner(vs[i])
    ensures var (ws, t) := Play(vs, balls);
      && (t == (0, 0, 0) <==> forall i :: 0 <= i < |ws| ==> !IsWinner(ws[i]))
      && 0 <= t.0 <= |vs| && 0 <= t.1 <= |vs| && 0 <= t.2 <= |vs|
      && t.0 + t.1 + t.2 >= |WinnerIndices(ws, |ws|)|
    decreases |balls|
  {
    if balls == [] {
      WinnerIndicesComplete(vs, |vs|);
    } else {
      var next := SelectViews(vs, balls[0]);
      var w := WinnerIndices(next, |next|);
      WinnerIndicesSound(next, |next|);
      WinnerIndicesComplete(next, |next|);
      if |w| > 0 {
        TallyBounds(next, w);
      } else {
        PlayTally(next, balls[1..]);
      }
    }
  }

  /** The round: the (0, 0, 0) tally means no winner, and the counts are bounded by the cards. */
  lemma RoundTally(vs: seq<CardView>, balls: seq<int>)
    requires AllOk(vs)
    ensures var (ws, t) := RoundResult(vs, balls);
      && (t == (0, 0, 0) <==> forall i :: 0 <= i < |ws| ==> !IsWinner(ws[i]))
      && 0 <= t.0 <= |vs| && 0 <= t.1 <= |vs| && 0 <= t.2 <= |vs|
      && t.0 + t.1 + t.2 >= |WinnerIndices(ws, |ws|)|
  {
    var rs := ResetViews(vs);
    forall i | 0 <= i < |rs| ensures !IsWinner(rs[i]) {
      ResetViewFaithful(vs[i]);
    }
    PlayTally(rs, balls);
  }

  /** The order GetRandomBalls calls the balls in: the list 1 .. 75 dealt with the oracle indices picks. */
  function BallOrder(picks: seq<nat>): (balls: seq<int>)
    requires ValidPicks(75, picks)
    ensures |balls| == |picks|
  {
    Deal(Range(1, 75), picks)
  }

  /** The 75 balls of a round: each ball number 1 .. 75 exactly once. */
  lemma BallsArePermutation(picks: seq<nat>)
    requires ValidPicks(75, picks) && |picks| == 75
    ensures var balls := BallOrder(picks);
      && |balls| == 75
      && multiset(balls) == multiset(Range(1, 75))
      && Distinct(balls)
      && forall x :: x in balls <==> 1 <= x <= 75
  {
    var balls := Deal(Range(1, 75), picks);
    DealWholePool(Range(1, 75), picks);
    RangeMembers(1, 75);
    DealDistinct(Range(1, 75), picks);
    forall x ensures x in balls <==> 1 <= x <= 75 {
      assert x in balls <==> x in multiset(balls);
      assert x in Range(1, 75) <==> x in multiset(Range(1, 75));
    }
  }

  // ---------------------------------------------------------------------------
  // The round object

  /** The objects the cards' operations may change. */
  function Everything(cards: seq<AnyCard>): set<object> {
    set i, o | 0 <= i < |cards| && o in Footprint(cards[i]) :: o
  }

  /** No two cards of the list share an object, so calling one never changes another. */
  predicate Separate(cards: seq<AnyCard>) {
    forall i, j :: 0 <= i < |cards| && 0 <= j < |cards| && i != j ==> Footprint(cards[i]) !! Footprint(cards[j])
  }

  /** A card list whose objects are exactly repr, every card usable, no two sharing an object. */
  ghost predicate Ready(cards: seq<AnyCard>, repr: set<object>)
    reads repr
  {
    && repr == Everything(cards)
    && Separate(cards)
    && forall i :: 0 <= i < |cards| ==> CardOk(cards[i])
  }

  /** The cards' states. */
  ghost function ViewsOf(cards: seq<AnyCard>, repr: set<object>): (vs: seq<CardView>)
    requires Ready(cards, repr)
    reads repr
    ensures |vs| == |cards| && AllOk(vs)
    ensures forall i :: 0 <= i < |cards| ==> vs[i] == View(cards[i])
  {
    seq(|cards|, i requires 0 <= i < |cards| && CardOk(cards[i]) reads repr => View(cards[i]))
  }

  /** The cards at the listed positions. */
  function Pick(cards: seq<AnyCard>, w: seq<nat>): (p: seq<AnyCard>)
    requires forall k :: 0 <= k < |w| ==> w[k] < |cards|
    ensures |p| == |w| && forall k :: 0 <= k < |w| ==> p[k] == cards[w[k]]
  {
    seq(|w|, k requires 0 <= k < |w| => cards[w[k]])
  }

  /** One more card looked at: the winner list grows by that card exactly when it wins. */
  lemma PickStep(cards: seq<AnyCard>, vs: seq<CardView>, j: nat)
    requires j < |cards| == |vs|
    ensures Pick(cards, WinnerIndices(vs, j + 1)) ==
      Pick(cards, WinnerIndices(vs, j)) + if IsWinner(vs[j]) then [cards[j]] else []
  {
    var w := WinnerIndices(vs, j);
    if IsWinner(vs[j]) {
      assert WinnerIndices(vs, j + 1) == w + [j];
    } else {
      assert WinnerIndices(vs, j + 1) == w;
    }
  }

  class SingleRound {
    const cards: seq<AnyCard>
    /** The objects of all the cards. */
    ghost const Repr: set<object>

    ghost predicate Valid()
      reads Repr
    {
      Ready(cards, Repr)
    }

    /** The cards' states. */
    ghost function Views(): (vs: seq<CardView>)
      requires Valid()
      reads Repr
      ensures vs == ViewsOf(cards, Repr)
    {
      ViewsOf(cards, Repr)
    }

    constructor(cards: seq<AnyCard>)
      ensures this.cards == cards && Repr == Everything(cards)
      ensures Ready(cards, Everything(cards)) ==> Valid()
    {
      this.cards := cards;
      Repr := Everything(cards);
    }

    /**
     * SingleRound.DoRound: the cards reset, the balls drawn with the index oracle,
     * then called one by one until some card wins; the result is the tally.
     */
    method DoRound(picks: seq<nat>) returns (horizontal: int, vertical: int, diagonal: int)
      requires Valid() && ValidPicks(75, picks) && |picks| == 75
      modifies Repr
      ensures Valid()
      ensures (Views(), (horizontal, vertical, diagonal)) == RoundResult(old(Views()), BallOrder(picks))
    {
      ResetCards();
      var ballNumbers := GetRandomBalls(picks);
      horizontal, vertical, diagonal := CallBalls(ballNumbers);
    }

    /**
     * The ball loop of DoRound: each ball called on every card, stopping after the
     * first ball that leaves some card a winner, whose winners are tallied.
     */
    method CallBalls(ballNumbers: seq<int>) returns (horizontal: int, vertical: int, diagonal: int)
      requires Valid()
      modifies Repr
      ensures Valid() && (Views(), (horizontal, vertical, diagonal)) == Play(old(Views()), ballNumbers)
    {
      ghost var goal := Play(Views(), ballNumbers);
      horizontal, vertical, diagonal := 0, 0, 0;
      var i := 0;
      assert ballNumbers[0..] == ballNumbers;
      while i < |ballNumbers|
        invariant Valid() && 0 <= i <= |ballNumbers|
        invariant Play(Views(), ballNumbers[i..]) == goal
      {
        var ball := ballNumbers[i];
        ghost var current := Views();
        PlayFirst(current, ballNumbers[i..]);
        var winners := SelectBall(ball);
        assert ballNumbers[i..][0] == ball && ballNumbers[i..][1..] == ballNumbers[i + 1..];
        if |winners| > 0 {
          horizontal, vertical, diagonal := TallyWinners(winners, WinnerIndices(Views(), |cards|));
          return;
        }
        i := i + 1;
      }
      assert ballNumbers[i..] == [];
    }

    /** The tally of DoRound: over the winners, how many have each flag set. */
    method TallyWinners(winners: seq<AnyCard>, ghost w: seq<nat>) returns (horizontal: int, vertical: int, diagonal: int)
      requires Valid() && (forall k :: 0 <= k < |w| ==> w[k] < |cards|) && winners == Pick(cards, w)
      ensures (horizontal, vertical, diagonal) == Tally(Views(), w)
    {
      ghost var now := Views();
      horizontal, vertical, diagonal := 0, 0, 0;
      for k := 0 to |winners|
        invariant (horizontal, vertical, diagonal) == Tally(now, w[..k])
      {
        assert w[..k + 1][..k] == w[..k];
        var winner := winners[k];
        assert winner == cards[w[k]] && CardOk(winner) && View(winner) == now[w[k]];
        if IsWinnerHorizontally(winner) {
          horizontal := horizontal + 1;
        }
        if IsWinnerVertically(winner) {
          vertical := vertical + 1;
        }
        if IsWinnerDiagonally(winner) {
          diagonal := diagonal + 1;
        }
      }
      assert w[..|winners|] == w;
    }

    /** The start of DoRound: Reset on every card. */
    method ResetCards()
      requires Valid()
      modifies Repr
      ensures Valid() && Views() == ResetViews(old(Views()))
    {
      ghost var v0 := Views();
      for j := 0 to |cards|
        invariant Valid()
        invariant forall i :: 0 <= i < |cards| ==> View(cards[i]) == if i < j then ResetView(v0[i]) else v0[i]
      {
        ResetOne(j);
      }
      SameViews(ResetViews(v0));
    }

    /** Reset on card j, which leaves the other cards as they were. */
    method ResetOne(j: int)
      requires Valid() && 0 <= j < |cards|
      modifies Repr
      ensures Valid() && View(cards[j]) == ResetView(old(View(cards[j])))
      ensures forall i :: 0 <= i < |cards| && i != j ==> View(cards[i]) == old(View(cards[i]))
    {
      assert Footprint(cards[j]) <= Repr;
      ResetCard(cards[j]);
      OthersUnchanged(j);
    }

    /**
     * The body of DoRound's ball loop: the ball called on every card, and each card
     * that is a winner after its call added to the winners, in card order.
     */
    method SelectBall(ball: int) returns (winners: seq<AnyCard>)
      requires Valid()
      modifies Repr
      ensures Valid() && Views() == SelectViews(old(Views()), ball)
      ensures winners == Pick(cards, WinnerIndices(SelectViews(old(Views()), ball), |cards|))
    {
      ghost var v0 := Views();
      ghost var target := SelectViews(v0, ball);
      winners := [];
      for j := 0 to |cards|
        invariant Valid()
        invariant forall i :: 0 <= i < |cards| ==> View(cards[i]) == if i < j then target[i] else v0[i]
        invariant winners == Pick(cards, WinnerIndices(target, j))
      {
        var isWinner := SelectOne(j, ball);
        PickStep(cards, target, j);
        assert isWinner == IsWinner(target[j]);
        if isWinner {
          winners := winners + [cards[j]];
        }
      }
      SameViews(target);
    }

    lemma SameViews(vs: seq<CardView>)
      requires Valid() && |vs| == |cards| && forall i :: 0 <= i < |cards| ==> View(cards[i]) == vs[i]
      ensures Views() == vs
    {
    }

    /** The ball called on card j, which leaves the other cards as they were; then card j's IsWinner. */
    method SelectOne(j: int, ball: int) returns (isWinner: bool)
      requires Valid() && 0 <= j < |cards|
      modifies Repr
      ensures Valid() && View(cards[j]) == SelectView(old(View(cards[j])), ball)
      ensures forall i :: 0 <= i < |cards| && i != j ==> View(cards[i]) == old(View(cards[i]))
      ensures isWinner == IsWinner(View(cards[j]))
    {
      assert Footprint(cards[j]) <= Repr;
      var _ := SelectCard(cards[j], ball);
      OthersUnchanged(j);
      isWinner := IsWinnerCard(cards[j]);
    }

    /** After a call on card j alone, every other card is still usable and in the same state. */
    twostate lemma OthersUnchanged(j: int)
      requires old(Valid()) && 0 <= j < |cards| && CardOk(cards[j])
      requires forall o :: o in Repr && o !in Footprint(cards[j]) ==> unchanged(o)
      ensures Valid()
      ensures forall i :: 0 <= i < |cards| && i != j ==> View(cards[i]) == old(View(cards[i]))
    {
      forall i | 0 <= i < |cards| && i != j
        ensures CardOk(cards[i]) && View(cards[i]) == old(View(cards[i]))
      {
        assert Footprint(cards[i]) !! Footprint(cards[j]);
        match cards[i]
        case Dense(c) =>
          assert c in Repr && c.board in Repr;
          assert unchanged(c) && unchanged(c.board);
        case Linked(l) =>
          assert l in Repr;
          assert unchanged(l);
      }
    }

    /**
     * SingleRound.GetRandomBalls: the 75 ball numbers taken one by one from the
     * ordered list 1 .. 75 at the indices the oracle gives.
     */
    static method GetRandomBalls(picks: seq<nat>) returns (ballNumbers: seq<int>)
      requires ValidPicks(75, picks) && |picks| == 75
      ensures ballNumbers == BallOrder(picks)
    {
      ballNumbers := [];
      var ordered := Range(1, 75);
      var done := 0;
      while |ordered| > 0
        invariant 0 <= done <= 75 && |ordered| == 75 - done
        invariant ValidPicks(|ordered|, picks[done..])
        invariant ballNumbers + Deal(ordered, picks[done..]) == BallOrder(picks)
        decreases |ordered|
      {
        DropStep(picks, done);
        DealStep(ordered, picks[done..]);
        var index := picks[done];
        ballNumbers := ballNumbers + [ordered[index]];
        ordered := RemoveAt(ordered, index);
        done := done + 1;
      }
    }
  }
}
