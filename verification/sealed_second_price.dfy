/**
 * The sealed second-price (Vickrey) auction (fresco-auction SealedSecondPriceAuction),
 * read in plaintext like the first-price auction. The winner is chosen by the
 * same rule; the price is the second-highest bid, tracked in `secHighBid`.
 */
module SealedSecondPrice {
  import opened Bids
  import opened Auctions

  /** For non-negative bids the largest-or-zero is the highest bid. */
  lemma MaxOrZeroOfNonNegative(s: seq<int>)
    requires |s| > 0
    requires forall i :: 0 <= i < |s| ==> s[i] >= 0
    ensures MaxOrZero(s) == MaxBid(s)
  {
    MaxOrZeroIn(s);
    var m := MaxOrZero(s);
    if m != 0 {
      var i :| 0 <= i < |s| && s[i] == m;
    }
    var j := TopIndex(s);
  }

  /** Removing an element before the end commutes with appending. */
  lemma RemoveAtAppend(s: seq<int>, b: int, k: nat)
    requires k < |s|
    ensures RemoveAt(s + [b], k) == RemoveAt(s, k) + [b]
  {
    var t := s + [b];
    assert t[..k] == s[..k];
    assert t[k + 1..] == s[k + 1..] + [b];
  }

  /** Appending to a sequence extends its largest-or-zero like one more loop step. */
  lemma MaxOrZeroAppend(s: seq<int>, b: int)
    ensures MaxOrZero(s + [b]) == if MaxOrZero(s) <= b then b else MaxOrZero(s)
  {
    assert (s + [b])[..|s|] == s;
  }

  /**
   * One step of the scan: appending bid `b` to the prefix `s` changes the second
   * bid exactly as the two nested `condSelect`s change `secHighBid`.
   */
  lemma SecondBidStep(s: seq<int>, b: int)
    requires |s| > 0
    requires forall i :: 0 <= i < |s| ==> s[i] >= 0
    ensures MaxBid(s) <= b ==> SecondBid(s + [b]) == MaxBid(s)
    ensures MaxBid(s) > b ==>
              SecondBid(s + [b]) == if SecondBid(s) <= b then b else SecondBid(s)
  {
    if MaxBid(s) <= b {
      AppendNewTop(s, b);
      MaxOrZeroOfNonNegative(s);
    } else {
      AppendBelowTopIndex(s, b);
      RemoveAtAppend(s, b, TopIndex(s));
      MaxOrZeroAppend(RemoveAt(s, TopIndex(s)), b);
    }
  }

  /**
   * The two nested `condSelect`s of one comparison: the new `secHighBid` once
   * bid `b` is compared with `highBid` and `secHighBid`.
   */
  function Next(highBid: int, secHighBid: int, b: int): int {
    if highBid <= b then highBid else if secHighBid <= b then b else secHighBid
  }

  /** One iteration of the comparison loop: how the second bid of the prefix seen changes with bid `i`. */
  lemma SecondStep(bids: seq<int>, i: nat)
    requires 1 <= i < |bids| && ValidBids(bids)
    ensures SecondBid(bids[..i + 1]) == Next(MaxBid(bids[..i]), SecondBid(bids[..i]), bids[i])
  {
    var s := bids[..i];
    assert bids[..i + 1] == s + [bids[i]];
    if MaxBid(s) <= bids[i] {
      AppendNewTop(s, bids[i]);
    } else {
      AppendBelowTopMax(s, bids[i]);
      AppendBelowTopIndex(s, bids[i]);
    }
    assert forall j :: 0 <= j < |s| ==> s[j] >= 0;
    SecondBidStep(s, bids[i]);
  }

  /**
   * The comparison loop's `secHighBid` once it has seen the first `i` bids: it
   * starts at the known constant 0; at each step it becomes the old highest bid
   * if that is lower than or equal to the new bid, else the new bid if
   * `secHighBid` is lower than or equal to it, else it stays.
   */
  function RunnerUp(bids: seq<int>, i: nat): int
    requires 1 <= i <= |bids|
  {
    if i == 1 then 0 else Next(Leader(bids, i - 1).0, RunnerUp(bids, i - 1), bids[i - 1])
  }

  /** A single bid has no runner-up: the second price is 0. */
  lemma SecondOfOne(bids: seq<int>)
    requires |bids| == 1
    ensures SecondBid(bids) == 0
  {
    assert RemoveAt(bids, 0) == [];
  }

  /** The base case of `RunnerUpIsSecond`. */
  lemma RunnerUpOfOne(bids: seq<int>)
    requires 1 <= |bids|
    ensures RunnerUp(bids, 1) == SecondBid(bids[..1])
  {
    SecondOfOne(bids[..1]);
  }

  /** With valid bids the scan's `secHighBid` is the second-highest bid of the bids seen. */
  lemma {:induction false} RunnerUpIsSecond(bids: seq<int>, i: nat)
    requires 1 <= i <= |bids| && ValidBids(bids)
    ensures RunnerUp(bids, i) == SecondBid(bids[..i])
  {
    if i == 1 {
      RunnerUpOfOne(bids);
    } else {
      RunnerUpIsSecond(bids, i - 1);
      RunnerUpStep(bids, i);
    }
  }

  /** The induction step of `RunnerUpIsSecond`. */
  lemma RunnerUpStep(bids: seq<int>, i: nat)
    requires 2 <= i <= |bids| && ValidBids(bids)
    requires RunnerUp(bids, i - 1) == SecondBid(bids[..i - 1])
    ensures RunnerUp(bids, i) == SecondBid(bids[..i])
  {
    var k := i - 1;
    LeaderIsTop(bids, k);
    SecondStep(bids, k);
    assert bids[..k + 1] == bids[..i];
  }

  /**
   * The comparison loop of `buildComputation`. The winner is the first-price
   * winner; with valid bids the price is the second-highest bid.
   */
  method Evaluate(inputs: seq<(int, int)>) returns (r: AuctionResult)
    requires |inputs| > 0
    ensures r.winnerId == inputs[TopIndex(BidsOf(inputs))].0
    ensures ValidBids(BidsOf(inputs)) ==> r.finalPrice == SecondBid(BidsOf(inputs))
  {
    ghost var bids := BidsOf(inputs);
    var highBidderId := inputs[0].0;
    var highBid := inputs[0].1;
    var secHighBid := 0;
    ghost var top := 0;
    var i := 1;
    while i < |inputs|
      invariant 1 <= i <= |inputs|
      invariant (highBid, top) == Leader(bids, i) && secHighBid == RunnerUp(bids, i)
      invariant top < |inputs| && highBidderId == inputs[top].0
    {
      var inputPartyId := inputs[i].0;
      var inputBid := inputs[i].1;
      var highBidIsLowerEquals := highBid <= inputBid;
      var secHighBidIsLowerEquals := secHighBid <= inputBid;
      secHighBid := if highBidIsLowerEquals then highBid
                    else if secHighBidIsLowerEquals then inputBid else secHighBid;
      highBid := if highBidIsLowerEquals then inputBid else highBid;
      highBidderId := if highBidIsLowerEquals then inputPartyId else highBidderId;
      top := if highBidIsLowerEquals then i else top;
      i := i + 1;
    }
    LeaderIsTop(bids, i);
    if ValidBids(bids) {
      RunnerUpIsSecond(bids, i);
    }
    assert bids[..i] == bids;
    r := AuctionResult(highBidderId, secHighBid);
  }

  /** Recorded expectation: bids {1, 1} give winner 2 at price 1. */
  lemma TestVectorTie()
    ensures TopIndex([1, 1]) + 1 == 2 && SecondBid([1, 1]) == 1
  {
    assert RemoveAt([1, 1], 1) == [1];
  }

  /** Recorded expectation: bids {1, 42} give winner 2 at price 1. */
  lemma TestVectorSecondWins()
    ensures TopIndex([1, 42]) + 1 == 2 && SecondBid([1, 42]) == 1
  {
    assert RemoveAt([1, 42], 1) == [1];
  }

  /** Recorded expectation: bids {MAX, 42, 1} give winner 1 at price 42. */
  lemma TestVectorThreeParties()
    ensures TopIndex([2147483647, 42, 1]) + 1 == 1 && SecondBid([2147483647, 42, 1]) == 42
  {
    var s := [2147483647, 42, 1];
    TopIndexUnique(s, 0);
    assert RemoveAt(s, 0) == [42, 1];
    assert [42, 1][..1] == [42] && [42][..0] == [];
  }
}
