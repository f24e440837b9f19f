/**
 * The sum application used for testing the protocol (fresco-auction CalcSum):
 * not an auction; every party inputs one value and all learn the sum.
 */
module CalcSums {
  import opened Bids
  import opened Auctions

  /**
   * The input loop: one value per party in party order 1..N, the own value at
   * position myId and the value party id supplied elsewhere.
   */
  method CollectInputs(nc: NetworkConfiguration, input: int, supplied: seq<int>) returns (inputs: seq<int>)
    requires |supplied| == nc.noOfParties
    ensures |inputs| == nc.noOfParties
    ensures forall i :: 0 <= i < |inputs| ==> inputs[i] == if i + 1 == nc.myId then input else supplied[i]
    ensures 1 <= nc.myId <= nc.noOfParties && supplied[nc.myId - 1] == input ==> inputs == supplied
  {
    inputs := [];
    var id := 1;
    while id <= nc.noOfParties
      invariant 1 <= id <= |supplied| + 1
      invariant |inputs| == id - 1
      invariant forall i :: 0 <= i < |inputs| ==> inputs[i] == if i + 1 == nc.myId then input else supplied[i]
    {
      if id == nc.myId {
        inputs := inputs + [input];
      } else {
        inputs := inputs + [supplied[id - 1]];
      }
      id := id + 1;
    }
  }

  /**
   * The sum, open and result steps: no winner (-1) and the sum of all inputs as
   * the final price; with valid inputs that sum is at least the party count and
   * at least the largest input.
   */
  function Result(inputs: seq<int>): (r: AuctionResult)
    ensures r.winnerId == -1
    ensures |inputs| > 0 && ValidBids(inputs) ==> r.finalPrice >= |inputs| && r.finalPrice >= MaxBid(inputs)
  {
    if |inputs| > 0 && ValidBids(inputs) then SumBounds(inputs); AuctionResult(-1, Sum(inputs))
    else AuctionResult(-1, Sum(inputs))
  }
}
