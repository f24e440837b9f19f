/**
 * The member's local record of an auction it takes part in (auction-client
 * AuctionTask): where the host listens, the member's evaluation port and bid,
 * and what the evaluation and the phases have made of it so far.
 */
module AuctionTasks {
  import opened Wrappers
  import opened AuctionPhases

  /** A snapshot of a task's fields; `errorMessage` is `None` while the Java field is null. */
  datatype TaskRecord = TaskRecord(
    auctionId: int, hostIp: string, hostPort: int, smpcPort: int, currentBid: int,
    finalPrice: int, hasWon: bool, localPhase: AuctionPhase, errorMessage: Option<string>)

  /** The values a task holds right after construction. */
  function NewTask(auctionId: int, hostIp: string, hostPort: int, smpcPort: int, currentBid: int): (t: TaskRecord)
    ensures t.auctionId == auctionId && t.hostIp == hostIp && t.hostPort == hostPort
    ensures t.smpcPort == smpcPort && t.currentBid == currentBid
    ensures t.finalPrice == -1 && !t.hasWon
    ensures t.localPhase == Registration && t.errorMessage == None
  {
    TaskRecord(auctionId, hostIp, hostPort, smpcPort, currentBid, -1, false, Registration, None)
  }

  class AuctionTask {
    // Which auction and where it runs: set by the constructor and never changed.
    const auctionId: int
    const hostIp: string
    const hostPort: int
    const smpcPort: int
    var currentBid: int
    var finalPrice: int
    var hasWon: bool
    var localPhase: AuctionPhase
    var errorMessage: Option<string>

    /** A task for an auction just joined: no final price yet, not won, in Registration. */
    constructor (auctionId: int, hostIp: string, hostPort: int, smpcPort: int, currentBid: int)
      ensures Record() == NewTask(auctionId, hostIp, hostPort, smpcPort, currentBid)
    {
      this.auctionId := auctionId;
      this.hostIp := hostIp;
      this.hostPort := hostPort;
      this.smpcPort := smpcPort;
      this.currentBid := currentBid;
      finalPrice := -1;
      hasWon := false;
      localPhase := Registration;
      errorMessage := None;
    }

    /** The current values of the task. */
    function Record(): (t: TaskRecord)
      reads this
      ensures t.auctionId == auctionId && t.smpcPort == smpcPort && t.localPhase == localPhase
    {
      TaskRecord(auctionId, hostIp, hostPort, smpcPort, currentBid, finalPrice, hasWon, localPhase, errorMessage)
    }

    method SetCurrentBid(bid: int)
      modifies this`currentBid
      ensures Record() == old(Record()).(currentBid := bid)
    {
      currentBid := bid;
    }

    method SetFinalPrice(price: int)
      modifies this`finalPrice
      ensures Record() == old(Record()).(finalPrice := price)
    {
      finalPrice := price;
    }

    method SetHasWon(won: bool)
      modifies this`hasWon
      ensures Record() == old(Record()).(hasWon := won)
    {
      hasWon := won;
    }

    method SetLocalPhase(phase: AuctionPhase)
      modifies this`localPhase
      ensures Record() == old(Record()).(localPhase := phase)
    {
      localPhase := phase;
    }

    method SetErrorMessage(message: string)
      modifies this`errorMessage
      ensures Record() == old(Record()).(errorMessage := Some(message))
    {
      errorMessage := Some(message);
    }
  }
}
