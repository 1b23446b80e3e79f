/**
 * The pick-and-remove draw that every random construction of the simulator uses:
 * a pool of candidates is built with Enumerable.Range, an index below the pool's
 * current size is drawn, the candidate at that index is taken and removed from the
 * pool, and this repeats.  The random generator is replaced by an oracle: the
 * sequence of indices it returned, each below the pool size at its draw.
 */
module Draw {

  /** The list `Enumerable.Range(start, count)` builds: start, start + 1, ..., start + count - 1. */
  function Range(start: int, count: nat): (r: seq<int>)
    ensures |r| == count
  {
    seq(count, k => start + k)
  }

  /** No value occurs twice. */
  predicate Distinct(s: seq<int>) {
    forall i, j :: 0 <= i < j < |s| ==> s[i] != s[j]
  }

  /** `List.RemoveAt(i)`: the list without its i-th element. */
  function RemoveAt(s: seq<int>, i: nat): (r: seq<int>)
    requires i < |s|
    ensures |r| == |s| - 1
    ensures multiset(r) + multiset{s[i]} == multiset(s)
    ensures forall k :: 0 <= k < i ==> r[k] == s[k]
    ensures forall k :: i <= k < |r| ==> r[k] == s[k + 1]
  {
    assert s == s[..i] + [s[i]] + s[i + 1..];
    s[..i] + s[i + 1..]
  }

  /**
   * Oracle indices that are valid for |picks| successive draws from a pool that
   * starts with n candidates: the k-th index is below n - k, the pool's size then,
   * as `Random.Next(count)` guarantees.
   */
  predicate ValidPicks(n: nat, picks: seq<nat>) {
    |picks| <= n && forall k :: 0 <= k < |picks| ==> picks[k] < n - k
  }

  lemma ValidPicksTail(n: nat, picks: seq<nat>)
    requires ValidPicks(n, picks) && picks != []
    ensures ValidPicks(n - 1, picks[1..])
  {
    forall k | 0 <= k < |picks| - 1
      ensures picks[1..][k] < n - 1 - k
    {
      assert picks[1..][k] == picks[k + 1];
    }
  }

  /** The candidates drawn, in draw order. */
  function Deal(pool: seq<int>, picks: seq<nat>): (r: seq<int>)
    requires ValidPicks(|pool|, picks)
    ensures |r| == |picks|
    decreases |picks|
  {
    if picks == [] then []
    else
      ValidPicksTail(|pool|, picks);
      [pool[picks[0]]] + Deal(RemoveAt(pool, picks[0]), picks[1..])
  }

  /** The first draw takes the candidate at the first index; the rest draw from the pool without it. */
  lemma DealStep(pool: seq<int>, picks: seq<nat>)
    requires ValidPicks(|pool|, picks) && picks != []
    ensures picks[0] < |pool| && ValidPicks(|pool| - 1, picks[1..])
    ensures Deal(pool, picks) == [pool[picks[0]]] + Deal(RemoveAt(pool, picks[0]), picks[1..])
  {
    ValidPicksTail(|pool|, picks);
  }

  /**
   * One draw of a loop that deals `drawn` from `pool`, positioned at `k`: the index is in
   * range, it takes the k-th value dealt, and the remaining draws deal the rest.
   */
  lemma DealNext(pool: seq<int>, picks: seq<nat>, drawn: seq<int>, k: nat)
    requires ValidPicks(|pool|, picks) && picks != [] && k < |drawn|
    requires Deal(pool, picks) == drawn[k..]
    ensures picks[0] < |pool| && ValidPicks(|pool| - 1, picks[1..])
    ensures pool[picks[0]] == drawn[k]
    ensures Deal(RemoveAt(pool, picks[0]), picks[1..]) == drawn[k + 1..]
  {
    DealStep(pool, picks);
    var d := Deal(pool, picks);
    var tail := Deal(RemoveAt(pool, picks[0]), picks[1..]);
    assert d == [pool[picks[0]]] + tail;
    assert d[0] == drawn[k];
    assert tail == d[1..] == drawn[k + 1..];
  }

  /** The first element of a suffix, and the suffix that follows it. */
  lemma DropStep(s: seq<nat>, i: nat)
    requires i < |s|
    ensures s[i..] != [] && s[i..][0] == s[i] && s[i..][1..] == s[i + 1..]
  {
  }

  /** What is left in the pool after the draws. */
  function Leftover(pool: seq<int>, picks: seq<nat>): (r: seq<int>)
    requires ValidPicks(|pool|, picks)
    ensures |r| == |pool| - |picks|
    decreases |picks|
  {
    if picks == [] then pool
    else
      ValidPicksTail(|pool|, picks);
      Leftover(RemoveAt(pool, picks[0]), picks[1..])
  }

  /** The drawn candidates and the leftover pool together are exactly the starting pool. */
  lemma {:induction false} DealSplitsPool(pool: seq<int>, picks: seq<nat>)
    requires ValidPicks(|pool|, picks)
    ensures multiset(Deal(pool, picks)) + multiset(Leftover(pool, picks)) == multiset(pool)
    decreases |picks|
  {
    if picks != [] {
      ValidPicksTail(|pool|, picks);
      var rest := RemoveAt(pool, picks[0]);
      DealSplitsPool(rest, picks[1..]);
      assert Deal(pool, picks) == [pool[picks[0]]] + Deal(rest, picks[1..]);
    }
  }

  /** Drawing the whole pool yields a permutation of it. */
  lemma DealWholePool(pool: seq<int>, picks: seq<nat>)
    requires ValidPicks(|pool|, picks) && |picks| == |pool|
    ensures multiset(Deal(pool, picks)) == multiset(pool)
  {
    DealSplitsPool(pool, picks);
    assert Leftover(pool, picks) == [];
  }

  /** Removing from a pool without repeats leaves a pool without repeats that lacks the removed value. */
  lemma RemoveAtDistinct(s: seq<int>, i: nat)
    requires i < |s| && Distinct(s)
    ensures Distinct(RemoveAt(s, i))
    ensures s[i] !in RemoveAt(s, i)
    ensures forall x :: x in RemoveAt(s, i) ==> x in s
  {
    var r := RemoveAt(s, i);
    forall x | x in r ensures x in s && x != s[i] {
      var k :| 0 <= k < |r| && r[k] == x;
      if k < i { assert r[k] == s[k]; } else { assert r[k] == s[k + 1]; }
    }
  }

  /** Draws from a pool without repeats are pairwise different candidates of that pool. */
  lemma {:induction false} DealDistinct(pool: seq<int>, picks: seq<nat>)
    requires ValidPicks(|pool|, picks) && Distinct(pool)
    ensures Distinct(Deal(pool, picks))
    ensures forall x :: x in Deal(pool, picks) ==> x in pool
    decreases |picks|
  {
    if picks != [] {
      ValidPicksTail(|pool|, picks);
      var rest := RemoveAt(pool, picks[0]);
      RemoveAtDistinct(pool, picks[0]);
      DealDistinct(rest, picks[1..]);
      var d := Deal(pool, picks);
      assert d == [pool[picks[0]]] + Deal(rest, picks[1..]);
      forall i, j | 0 <= i < j < |d| ensures d[i] != d[j] {
        if i == 0 {
          assert d[j] == Deal(rest, picks[1..])[j - 1];
          assert d[j] in rest;
        } else {
          assert d[i] == Deal(rest, picks[1..])[i - 1];
          assert d[j] == Deal(rest, picks[1..])[j - 1];
        }
      }
      forall x | x in d ensures x in pool {
        if x != pool[picks[0]] {
          assert x in Deal(rest, picks[1..]);
        }
      }
    }
  }

  /** The range holds exactly the integers from start up to start + count - 1, once each. */
  lemma RangeMembers(start: int, count: nat)
    ensures Distinct(Range(start, count))
    ensures forall x :: x in Range(start, count) <==> start <= x < start + count
  {
    forall x | start <= x < start + count ensures x in Range(start, count) {
      assert Range(start, count)[x - start] == x;
    }
  }
}
