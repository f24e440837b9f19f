/**
 * The sealed first-price auction (fresco-auction SealedFirstPriceAuction), read in
 * plaintext: `compareLEQ(a, b)` is `a <= b`, `condSelect(c, x, y)` is
 * `if c then x else y`, and opening a value is the identity.
 */
module SealedFirstPrice {
  import opened Bids
  import opened Auctions

  /**
   * The comparison loop of `buildComputation`. The winner is the party holding
   * the highest bid, the last one when several tie, and it pays that bid.
   */
  method Evaluate(inputs: seq<(int, int)>) returns (r: AuctionResult)
    requires |inputs| > 0
    ensures r.finalPrice == MaxBid(BidsOf(inputs))
    ensures r.winnerId == inputs[TopIndex(BidsOf(inputs))].0
  {
    ghost var bids := BidsOf(inputs);
    var highBidderId := inputs[0].0;
    var highBid := inputs[0].1;
    ghost var top := 0;
    var i := 1;
    while i < |inputs|
      invariant 1 <= i <= |inputs|
      invariant (highBid, top) == Leader(bids, i)
      invariant top < |inputs| && highBidderId == inputs[top].0
    {
      var inputPartyId := inputs[i].0;
      var inputBid := inputs[i].1;
      var highBidIsLowerEquals := highBid <= inputBid;
      highBid := if highBidIsLowerEquals then inputBid else highBid;
      highBidderId := if highBidIsLowerEquals then inputPartyId else highBidderId;
      top := if highBidIsLowerEquals then i else top;
      i := i + 1;
    }
    LeaderIsTop(bids, i);
    assert bids[..i] == bids;
    r := AuctionResult(highBidderId, highBid);
  }

  /** On the inputs every party collects, the winner's party id is the top index plus one, in 1..N. */
  lemma WinnerIsPartyId(bids: seq<int>)
    requires |bids| > 0
    ensures BidsOf(PartyInputs(bids)) == bids
    ensures PartyInputs(bids)[TopIndex(bids)].0 == TopIndex(bids) + 1
    ensures 1 <= TopIndex(bids) + 1 <= |bids|
  {
    PartyInputsBids(bids);
  }

  /** Recorded expectations with two parties: the single highest bid wins, in either position. */
  lemma TestVectorsTwoParties()
    ensures TopIndex([1, 42]) + 1 == 2 && MaxBid([1, 42]) == 42
    ensures TopIndex([42, 1]) + 1 == 1 && MaxBid([42, 1]) == 42
  {
    TopIndexUnique([1, 42], 1);
    TopIndexUnique([42, 1], 0);
  }

  /** Recorded expectations with tied top bids: the tie goes to the higher party id. */
  lemma TestVectorsTies()
    ensures TopIndex([1, 2, 1]) + 1 == 2 && MaxBid([1, 2, 1]) == 2
    ensures TopIndex([42, 42, 42, 1]) + 1 == 3 && MaxBid([42, 42, 42, 1]) == 42
    ensures TopIndex([41, 43, 42, 43, 1]) + 1 == 4 && MaxBid([41, 43, 42, 43, 1]) == 43
  {
    TopIndexUnique([1, 2, 1], 1);
    TopIndexUnique([42, 42, 42, 1], 2);
    TopIndexUnique([41, 43, 42, 43, 1], 3);
  }

  /** Recorded expectation with ten parties: party 5 wins and pays its bid of 50. */
  lemma TestVectorTenParties()
    ensures TopIndex([25, 14, 15, 12, 50, 10, 13, 20, 17, 21]) + 1 == 5
    ensures MaxBid([25, 14, 15, 12, 50, 10, 13, 20, 17, 21]) == 50
  {
    TopIndexUnique([25, 14, 15, 12, 50, 10, 13, 20, 17, 21], 4);
  }
}
