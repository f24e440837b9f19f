/**
 * `AuctionFactory.getAuction`: construct the application for an auction type,
 * passing the bid and network configuration through to that class's
 * constructor, so its validation errors reach the caller. `Compute` then runs
 * the constructed application's `buildComputation`.
 */
module AuctionFactory {
  import opened Wrappers
  import opened Bids
  import opened Auctions
  import SealedFirstPrice
  import SealedSecondPrice
  import CalcSums

  function GetAuction(auctionType: AuctionType, bid: int, nc: NetworkConfiguration): (r: Result<Auction, string>)
    ensures r.Ok? <==> bid >= 1 && nc.noOfParties >= 2
    ensures r.Ok? ==> r.value == Auction(auctionType, bid, nc)
    ensures bid < 1 ==> r == Err(BidTooLow)
    ensures bid >= 1 && nc.noOfParties < 2 ==> r == Err(TooFewParties)
  {
    match auctionType
    case SealedFirstPrice => NewAuction(SealedFirstPrice, bid, nc)
    case SealedSecondPrice => NewAuction(SealedSecondPrice, bid, nc)
    case CalcSum => NewAuction(CalcSum, bid, nc)
  }

  /** What every party learns when party p supplied `bids[p - 1]`: the reference result of each kind. */
  function Expected(kind: AuctionType, bids: seq<int>): AuctionResult
    requires |bids| > 0
  {
    match kind
    case SealedFirstPrice => AuctionResult(TopIndex(bids) + 1, MaxBid(bids))
    case SealedSecondPrice => AuctionResult(TopIndex(bids) + 1, SecondBid(bids))
    case CalcSum => AuctionResult(-1, Sum(bids))
  }

  /**
   * `buildComputation` of the constructed auction, run by one party. When that
   * party's own slot of `supplied` is its own bid and all bids are valid, the
   * result is the reference result, which does not depend on `myId`: every
   * party obtains the same (winnerId, finalPrice).
   */
  method Compute(a: Auction, supplied: seq<int>) returns (r: AuctionResult)
    requires ValidAuction(a)
    requires |supplied| == a.networkConfiguration.noOfParties
    ensures var nc := a.networkConfiguration;
            1 <= nc.myId <= nc.noOfParties && supplied[nc.myId - 1] == a.secretBid && ValidBids(supplied) ==>
              r == Expected(a.kind, supplied)
    ensures a.kind == CalcSum ==> r.winnerId == -1
  {
    var nc := a.networkConfiguration;
    if a.kind == CalcSum {
      var inputs := CalcSums.CollectInputs(nc, a.secretBid, supplied);
      r := CalcSums.Result(inputs);
    } else {
      var inputs := CollectBidInputs(nc, a.secretBid, supplied);
      if a.kind == SealedFirstPrice {
        r := SealedFirstPrice.Evaluate(inputs);
      } else {
        r := SealedSecondPrice.Evaluate(inputs);
      }
      if 1 <= nc.myId <= nc.noOfParties && supplied[nc.myId - 1] == a.secretBid {
        PartyInputsBids(supplied);
      }
    }
  }
}
