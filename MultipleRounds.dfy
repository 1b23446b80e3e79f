/**
 * Several rounds on the same cards (MultipleRounds): each round is played with
 * its own draw of the balls, and the three counters record in how many rounds
 * some winner won horizontally, vertically and diagonally.
 */
module Rounds {
  import opened Draw
  import opened Cards
  import opened Round

  /** Every round's oracle indices draw a whole order of the 75 balls. */
  predicate AllDraws(draws: seq<seq<nat>>) {
    forall i :: 0 <= i < |draws| ==> ValidPicks(75, draws[i]) && |draws[i]| == 75
  }

  /**
   * The first n rounds from the given card states: the cards' states after them
   * and each round's tally, in order.
   */
  ghost function RoundsResult(vs: seq<CardView>, draws: seq<seq<nat>>, n: nat): (res: (seq<CardView>, seq<(int, int, int)>))
    requires AllOk(vs) && AllDraws(draws) && n <= |draws|
    ensures |res.0| == |vs| && AllOk(res.0) && |res.1| == n
  {
    if n == 0 then (vs, [])
    else
      var before := RoundsResult(vs, draws, n - 1);
      var round := RoundResult(before.0, BallOrder(draws[n - 1]));
      (round.0, before.1 + [round.1])
  }

  /** The three counters: in how many of the tallies each count is positive. */
  function Counters(ts: seq<(int, int, int)>): (c: (int, int, int)) {
    if ts == [] then (0, 0, 0)
    else
      var c := Counters(ts[..|ts| - 1]);
      var t := ts[|ts| - 1];
      (c.0 + (if t.0 > 0 then 1 else 0),
       c.1 + (if t.1 > 0 then 1 else 0),
       c.2 + (if t.2 > 0 then 1 else 0))
  }

  /** Whether a tally counts winners of the given kind (0 horizontal, 1 vertical, 2 diagonal). */
  predicate Positive(t: (int, int, int), kind: nat) {
    (if kind == 0 then t.0 else if kind == 1 then t.1 else t.2) > 0
  }

  /** The rounds (by position) whose tally counts winners of the given kind. */
  ghost function PositiveRounds(ts: seq<(int, int, int)>, kind: nat): set<int> {
    set i | 0 <= i < |ts| && Positive(ts[i], kind)
  }

  /** Counting one more round adds one to each counter whose count in it is positive. */
  lemma CountersStep(ts: seq<(int, int, int)>, t: (int, int, int))
    ensures Counters(ts + [t]).0 == Counters(ts).0 + (if t.0 > 0 then 1 else 0)
    ensures Counters(ts + [t]).1 == Counters(ts).1 + (if t.1 > 0 then 1 else 0)
    ensures Counters(ts + [t]).2 == Counters(ts).2 + (if t.2 > 0 then 1 else 0)
  {
    assert (ts + [t])[..|ts|] == ts;
  }

  /** Each counter is the number of rounds whose count of that kind is positive, and lies in 0 .. |ts|. */
  lemma {:induction false} CountersCount(ts: seq<(int, int, int)>)
    ensures Counters(ts).0 == |PositiveRounds(ts, 0)|
    ensures Counters(ts).1 == |PositiveRounds(ts, 1)|
    ensures Counters(ts).2 == |PositiveRounds(ts, 2)|
    ensures 0 <= Counters(ts).0 <= |ts| && 0 <= Counters(ts).1 <= |ts| && 0 <= Counters(ts).2 <= |ts|
  {
    if ts != [] {
      var n := |ts| - 1;
      CountersCount(ts[..n]);
      PositiveRoundsStep(ts, 0);
      PositiveRoundsStep(ts, 1);
      PositiveRoundsStep(ts, 2);
    }
  }

  /** The positive rounds of ts: those of ts without its last round, and the last round if positive. */
  lemma PositiveRoundsStep(ts: seq<(int, int, int)>, kind: nat)
    requires ts != []
    ensures var n := |ts| - 1;
      |PositiveRounds(ts, kind)| == |PositiveRounds(ts[..n], kind)| + (if Positive(ts[n], kind) then 1 else 0)
  {
    var n := |ts| - 1;
    var before := PositiveRounds(ts[..n], kind);
    assert n !in before;
    if Positive(ts[n], kind) {
      assert PositiveRounds(ts, kind) == before + {n};
    } else {
      assert PositiveRounds(ts, kind) == before;
    }
  }

  /** The first i rounds from the states vs leave the states ws and the tallies ts. */
  ghost predicate Played(vs: seq<CardView>, draws: seq<seq<nat>>, i: int, ws: seq<CardView>, ts: seq<(int, int, int)>) {
    0 <= i <= |draws| && AllOk(vs) && AllDraws(draws) && RoundsResult(vs, draws, i) == (ws, ts)
  }

  /** The round object's cards are in the states ws. */
  ghost predicate Shows(round: SingleRound, ws: seq<CardView>)
    reads round.Repr
  {
    round.Valid() && round.Views() == ws
  }

  /** Playing one more round appends its tally and replaces the card states with the ones it leaves. */
  lemma RoundsNext(vs: seq<CardView>, draws: seq<seq<nat>>, i: nat, ws: seq<CardView>, tally: (int, int, int))
    requires AllOk(vs) && AllDraws(draws) && i < |draws|
    requires (ws, tally) == RoundResult(RoundsResult(vs, draws, i).0, BallOrder(draws[i]))
    ensures RoundsResult(vs, draws, i + 1) == (ws, RoundsResult(vs, draws, i).1 + [tally])
  {
  }

  /**
   * The counters DoRounds returns: each lies in 0 .. numRounds (all zero when
   * numRounds is not positive), and counts the rounds whose tally of that kind is
   * positive.
   */
  lemma DoRoundsCounters(vs: seq<CardView>, draws: seq<seq<nat>>, numRounds: int)
    requires AllOk(vs) && AllDraws(draws) && numRounds <= |draws|
    ensures var n := if numRounds < 0 then 0 else numRounds;
      var ts := RoundsResult(vs, draws, n).1;
      var c := Counters(ts);
      && |ts| == n
      && 0 <= c.0 <= n && 0 <= c.1 <= n && 0 <= c.2 <= n
      && (numRounds <= 0 ==> c == (0, 0, 0))
      && c.0 == |PositiveRounds(ts, 0)| && c.1 == |PositiveRounds(ts, 1)| && c.2 == |PositiveRounds(ts, 2)|
  {
    var n := if numRounds < 0 then 0 else numRounds;
    CountersCount(RoundsResult(vs, draws, n).1);
  }

  class MultipleRounds {
    const cards: seq<AnyCard>
    /** The objects of all the cards. */
    ghost const Repr: set<object>

    ghost predicate Valid()
      reads Repr
    {
      Ready(cards, Repr)
    }

    constructor(cards: seq<AnyCard>)
      ensures this.cards == cards && Repr == Everything(cards)
      ensures Ready(cards, Everything(cards)) ==> Valid()
    {
      this.cards := cards;
      Repr := Everything(cards);
    }

    /**
     * MultipleRounds.DoRounds: numRounds rounds on the same cards, round i drawing its
     * balls with the oracle indices draws[i]; the three counters are returned.
     */
    method DoRounds(numRounds: int, draws: seq<seq<nat>>) returns (horizontal: int, vertical: int, diagonal: int)
      requires Valid() && AllDraws(draws) && numRounds <= |draws|
      modifies Repr
      ensures Valid()
      ensures ViewsOf(cards, Repr) == RoundsResult(old(ViewsOf(cards, Repr)), draws, if numRounds < 0 then 0 else numRounds).0
      ensures (horizontal, vertical, diagonal) == Counters(RoundsResult(old(ViewsOf(cards, Repr)), draws, if numRounds < 0 then 0 else numRounds).1)
    {
      var round := new SingleRound(cards);
      ghost var ws, ts;
      horizontal, vertical, diagonal, ws, ts := PlayRounds(round, numRounds, draws, ViewsOf(cards, Repr));
    }

    /** The loop of DoRounds, on the round object it made for the cards. */
    static method PlayRounds(round: SingleRound, numRounds: int, draws: seq<seq<nat>>, ghost v0: seq<CardView>)
      returns (horizontal: int, vertical: int, diagonal: int, ghost ws: seq<CardView>, ghost ts: seq<(int, int, int)>)
      requires Shows(round, v0) && AllDraws(draws) && numRounds <= |draws|
      modifies round.Repr
      ensures Shows(round, ws) && Played(v0, draws, if numRounds < 0 then 0 else numRounds, ws, ts)
      ensures Counters(ts) == (horizontal, vertical, diagonal)
    {
      horizontal, vertical, diagonal := 0, 0, 0;
      ws, ts := v0, [];
      var i := 0;
      while i < numRounds
        invariant 0 <= i && (i <= numRounds || i == 0)
        invariant Shows(round, ws) && Played(v0, draws, i, ws, ts)
        invariant Counters(ts) == (horizontal, vertical, diagonal)
      {
        var passH, passV, passD := round.DoRound(draws[i]);
        RoundsNext(v0, draws, i, round.Views(), (passH, passV, passD));
        CountersStep(ts, (passH, passV, passD));
        ws, ts := round.Views(), ts + [(passH, passV, passD)];
        if passH > 0 {
          horizontal := horizontal + 1;
        }
        if passV > 0 {
          vertical := vertical + 1;
        }
        if passD > 0 {
          diagonal := diagonal + 1;
        }
        i := i + 1;
      }
    }
  }
}
