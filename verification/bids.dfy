/**
 * Reference definitions for the plaintext meaning of the auction computations:
 * the highest bid, the party that holds it (ties to the later party) and the
 * second-highest bid. Bids are listed in party order, index i being party i + 1.
 */
module Bids {

  /** Every bid passed the constructor check of its own party (bid >= 1). */
  predicate ValidBids(bids: seq<int>) {
    forall i :: 0 <= i < |bids| ==> bids[i] >= 1
  }

  /** The highest bid. */
  function MaxBid(bids: seq<int>): (m: int)
    requires |bids| > 0
    ensures forall i :: 0 <= i < |bids| ==> bids[i] <= m
  {
    if |bids| == 1 then bids[0]
    else
      var m' := MaxBid(bids[..|bids| - 1]);
      if m' <= bids[|bids| - 1] then bids[|bids| - 1] else m'
  }

  /** The last index holding the highest bid: the winner when several parties tie. */
  function TopIndex(bids: seq<int>): (k: nat)
    requires |bids| > 0
    ensures k < |bids| && bids[k] == MaxBid(bids)
    ensures forall j :: k < j < |bids| ==> bids[j] < bids[k]
  {
    if bids[|bids| - 1] == MaxBid(bids) then |bids| - 1
    else
      assert MaxBid(bids[..|bids| - 1]) == MaxBid(bids);
      TopIndex(bids[..|bids| - 1])
  }

  /** The two properties of `TopIndex` single it out among all indices. */
  lemma TopIndexUnique(bids: seq<int>, k: nat)
    requires k < |bids|
    requires forall j :: 0 <= j < |bids| ==> bids[j] <= bids[k]
    requires forall j :: k < j < |bids| ==> bids[j] < bids[k]
    ensures k == TopIndex(bids)
  {
    var t := TopIndex(bids);
    assert bids[t] == bids[k];
  }

  /** `s` without the element at index `k`. */
  function RemoveAt(s: seq<int>, k: nat): (r: seq<int>)
    requires k < |s|
    ensures |r| == |s| - 1
    ensures forall j :: 0 <= j < k ==> r[j] == s[j]
    ensures forall j :: k < j < |s| ==> r[j - 1] == s[j]
  {
    s[..k] + s[k + 1..]
  }

  /** The largest element, where the empty sequence and negative elements count as 0. */
  function MaxOrZero(s: seq<int>): (m: int)
    ensures m >= 0
    ensures forall i :: 0 <= i < |s| ==> s[i] <= m
  {
    if s == [] then 0
    else
      var m' := MaxOrZero(s[..|s| - 1]);
      if m' <= s[|s| - 1] then s[|s| - 1] else m'
  }

  /** Unless it is 0, the largest-or-zero is an element. */
  lemma {:induction false} MaxOrZeroIn(s: seq<int>)
    ensures MaxOrZero(s) == 0 || MaxOrZero(s) in s
  {
    if s != [] {
      var front := s[..|s| - 1];
      MaxOrZeroIn(front);
      assert s == front + [s[|s| - 1]];
    }
  }

  /** The second-highest bid: the largest bid left once one top bid is set aside. */
  function SecondBid(bids: seq<int>): int
    requires |bids| > 0
  {
    MaxOrZero(RemoveAt(bids, TopIndex(bids)))
  }

  /** The sum of all inputs. */
  function Sum(s: seq<int>): int {
    if s == [] then 0 else Sum(s[..|s| - 1]) + s[|s| - 1]
  }

  // ---------------------------------------------------------------------------
  // Properties of the reference definitions
  // ---------------------------------------------------------------------------

  /** The second price never exceeds the winning bid. */
  lemma SecondBidAtMostTop(bids: seq<int>)
    requires |bids| > 0 && ValidBids(bids)
    ensures SecondBid(bids) <= MaxBid(bids)
  {
    var k := TopIndex(bids);
    var rest := RemoveAt(bids, k);
    MaxOrZeroIn(rest);
    if SecondBid(bids) != 0 {
      var i :| 0 <= i < |rest| && rest[i] == SecondBid(bids);
      if i < k { assert rest[i] == bids[i]; } else { assert rest[i] == bids[i + 1]; }
    }
  }

  /**
   * With at least two valid bids, the second price is the largest bid of some
   * party other than the winner, and no other party bid more.
   */
  lemma SecondBidIsRunnerUp(bids: seq<int>)
    requires |bids| >= 2 && ValidBids(bids)
    ensures SecondBid(bids) >= 1
    ensures exists j :: 0 <= j < |bids| && j != TopIndex(bids) && bids[j] == SecondBid(bids)
    ensures forall j :: 0 <= j < |bids| && j != TopIndex(bids) ==> bids[j] <= SecondBid(bids)
  {
    var k := TopIndex(bids);
    var rest := RemoveAt(bids, k);
    var m := SecondBid(bids);
    assert rest[0] >= 1 by { if k == 0 { assert rest[0] == bids[1]; } else { assert rest[0] == bids[0]; } }
    MaxOrZeroIn(rest);
    assert m in rest;
    var i :| 0 <= i < |rest| && rest[i] == m;
    if i < k {
      assert bids[i] == m;
    } else {
      assert bids[i + 1] == m;
    }
    forall j | 0 <= j < |bids| && j != k ensures bids[j] <= m {
      if j < k { assert rest[j] == bids[j]; } else { assert rest[j - 1] == bids[j]; }
    }
  }

  /** When the top bid is tied, the second price collapses to the top bid. */
  lemma SecondBidTied(bids: seq<int>, j: nat)
    requires j < |bids| && j != TopIndex(bids) && bids[j] == MaxBid(bids)
    requires ValidBids(bids)
    ensures SecondBid(bids) == MaxBid(bids)
  {
    SecondBidIsRunnerUp(bids);
    SecondBidAtMostTop(bids);
  }

  /** With valid bids the sum is at least the number of parties and at least the top bid. */
  lemma {:induction false} SumBounds(s: seq<int>)
    requires |s| > 0 && ValidBids(s)
    ensures Sum(s) >= |s|
    ensures Sum(s) >= MaxBid(s)
  {
    if |s| > 1 {
      var p := s[..|s| - 1];
      assert ValidBids(p);
      SumBounds(p);
    }
  }

  /** The sum does not depend on where the sequence is split. */
  lemma {:induction false} SumAppend(s: seq<int>, t: seq<int>)
    ensures Sum(s + t) == Sum(s) + Sum(t)
  {
    if t != [] {
      assert (s + t)[..|s + t| - 1] == s + t[..|t| - 1];
      SumAppend(s, t[..|t| - 1]);
    } else {
      assert s + t == s;
    }
  }

  /** Appending a bid at least as high as the current top makes it the new, last top bid. */
  lemma AppendNewTop(s: seq<int>, b: int)
    requires |s| > 0 && MaxBid(s) <= b
    ensures MaxBid(s + [b]) == b && TopIndex(s + [b]) == |s|
    ensures RemoveAt(s + [b], |s|) == s
  {
    assert (s + [b])[..|s|] == s;
  }

  /** Appending a bid below the current top keeps the top bid. */
  lemma AppendBelowTopMax(s: seq<int>, b: int)
    requires |s| > 0 && MaxBid(s) > b
    ensures MaxBid(s + [b]) == MaxBid(s)
  {
    assert (s + [b])[..|s|] == s;
  }

  /** Appending a bid below the current top keeps the index of the top bid. */
  lemma AppendBelowTopIndex(s: seq<int>, b: int)
    requires |s| > 0 && MaxBid(s) > b
    ensures TopIndex(s + [b]) == TopIndex(s)
  {
    AppendBelowTopMax(s, b);
    assert (s + [b])[..|s|] == s;
  }

  /** One step of a left-to-right scan: how the top bid and its index change with bid `i`. */
  lemma TopStep(bids: seq<int>, i: nat)
    requires 1 <= i < |bids|
    ensures MaxBid(bids[..i]) <= bids[i] ==> MaxBid(bids[..i + 1]) == bids[i] && TopIndex(bids[..i + 1]) == i
    ensures MaxBid(bids[..i]) > bids[i] ==>
              MaxBid(bids[..i + 1]) == MaxBid(bids[..i]) && TopIndex(bids[..i + 1]) == TopIndex(bids[..i])
  {
    var s := bids[..i];
    assert bids[..i + 1] == s + [bids[i]];
    if MaxBid(s) <= bids[i] {
      AppendNewTop(s, bids[i]);
    } else {
      AppendBelowTopMax(s, bids[i]);
      AppendBelowTopIndex(s, bids[i]);
    }
  }

  /**
   * The (highBid, top) of the comparison loop both sealed auctions run, once it
   * has seen the first `i` bids: the current highest bid is replaced whenever
   * it is lower than or equal to the next bid.
   */
  function Leader(bids: seq<int>, i: nat): (int, nat)
    requires 1 <= i <= |bids|
  {
    if i == 1 then (bids[0], 0)
    else
      var prev := Leader(bids, i - 1);
      if prev.0 <= bids[i - 1] then (bids[i - 1], i - 1) else prev
  }

  /** The scan finds the highest bid and the last party holding it. */
  lemma {:induction false} LeaderIsTop(bids: seq<int>, i: nat)
    requires 1 <= i <= |bids|
    ensures Leader(bids, i).0 == MaxBid(bids[..i])
    ensures Leader(bids, i).1 == TopIndex(bids[..i])
  {
    if i > 1 {
      LeaderIsTop(bids, i - 1);
      TopStep(bids, i - 1);
    }
  }
}
