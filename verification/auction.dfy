/**
 * The common part of every auction application (fresco-auction Auction):
 * constructor validation, the immutable result pair, and the collection of the
 * (partyId, bid) inputs that the sealed auctions run on.
 */
module Auctions {
  import opened Wrappers

  /** The auction kinds a host can be configured with. */
  datatype AuctionType = SealedFirstPrice | SealedSecondPrice | CalcSum

  /** `AuctionResult`: the party id of the highest bidder and the price to pay. */
  datatype AuctionResult = AuctionResult(winnerId: int, finalPrice: int)

  /** What an auction needs of its network configuration: its own party id and the party count. */
  datatype NetworkConfiguration = NetworkConfiguration(myId: int, noOfParties: int)

  /** A constructed auction application: its kind and the validated, unchanged constructor arguments. */
  datatype Auction = Auction(kind: AuctionType, secretBid: int, networkConfiguration: NetworkConfiguration)

  const BidTooLow := "Bid cannot be lower than 1."
  const TooFewParties := "There must be at least 2 parties."

  /**
   * The `Auction` constructor, shared by every subclass: a bid below 1 is rejected
   * first, then a configuration with fewer than two parties; otherwise the
   * arguments are stored as given.
   */
  function NewAuction(kind: AuctionType, secretBid: int, nc: NetworkConfiguration): (r: Result<Auction, string>)
    ensures r.Ok? <==> secretBid >= 1 && nc.noOfParties >= 2
    ensures r.Ok? ==> r.value.kind == kind && r.value.secretBid == secretBid && r.value.networkConfiguration == nc
    ensures secretBid < 1 ==> r == Err(BidTooLow)
    ensures secretBid >= 1 && nc.noOfParties < 2 ==> r == Err(TooFewParties)
  {
    if secretBid < 1 then Err(BidTooLow)
    else if nc.noOfParties < 2 then Err(TooFewParties)
    else Ok(Auction(kind, secretBid, nc))
  }

  /** The constructor's postcondition as one predicate, for the auctions that ran. */
  predicate ValidAuction(a: Auction) {
    a.secretBid >= 1 && a.networkConfiguration.noOfParties >= 2
  }

  /** The inputs every party collects when each party `p` supplies `(p, bids[p - 1])`. */
  function PartyInputs(bids: seq<int>): (inputs: seq<(int, int)>)
    ensures |inputs| == |bids|
    ensures forall i :: 0 <= i < |bids| ==> inputs[i] == (i + 1, bids[i])
  {
    seq(|bids|, i requires 0 <= i < |bids| => (i + 1, bids[i]))
  }

  /** The bid components of a list of (partyId, bid) inputs. */
  function BidsOf(inputs: seq<(int, int)>): (bids: seq<int>)
    ensures |bids| == |inputs|
    ensures forall i :: 0 <= i < |inputs| ==> bids[i] == inputs[i].1
  {
    seq(|inputs|, i requires 0 <= i < |inputs| => inputs[i].1)
  }

  /**
   * The input loop of the sealed auctions: one (partyId, bid) pair per party in
   * party order 1..N. The own pair is (myId, secretBid); any other party's pair
   * is what that party supplied, `supplied[id - 1]` being party id's bid.
   */
  method CollectBidInputs(nc: NetworkConfiguration, secretBid: int, supplied: seq<int>)
    returns (inputs: seq<(int, int)>)
    requires |supplied| == nc.noOfParties
    ensures |inputs| == nc.noOfParties
    ensures forall i :: 0 <= i < |inputs| ==> inputs[i].0 == i + 1
    ensures forall i :: 0 <= i < |inputs| ==>
              inputs[i].1 == if i + 1 == nc.myId then secretBid else supplied[i]
    ensures 1 <= nc.myId <= nc.noOfParties && supplied[nc.myId - 1] == secretBid ==>
              inputs == PartyInputs(supplied)
  {
    inputs := [];
    var otherId := 1;
    while otherId <= nc.noOfParties
      invariant 1 <= otherId <= |supplied| + 1
      invariant |inputs| == otherId - 1
      invariant forall i :: 0 <= i < |inputs| ==> inputs[i].0 == i + 1
      invariant forall i :: 0 <= i < |inputs| ==>
                  inputs[i].1 == if i + 1 == nc.myId then secretBid else supplied[i]
    {
      if otherId == nc.myId {
        inputs := inputs + [(nc.myId, secretBid)];
      } else {
        inputs := inputs + [(otherId, supplied[otherId - 1])];
      }
      otherId := otherId + 1;
    }
  }

  /** The ids of `PartyInputs` are 1..N and its bids are the supplied ones. */
  lemma PartyInputsBids(bids: seq<int>)
    ensures BidsOf(PartyInputs(bids)) == bids
  {
  }
}
