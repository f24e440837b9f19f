/**
 * The host's record of one registered member (auction-platform ClientData):
 * the member's client id, fixed at construction, and the three values the
 * protocol fills in later, each starting at its "not yet known" sentinel.
 */
module ClientDataRecord {

  /** A snapshot of a record's fields. */
  datatype ClientRecord = ClientRecord(clientId: int, frescoPartyId: int, isReadyForAuctionEvaluation: bool, frescoPort: int)

  /** The values a record holds right after construction. */
  function FreshRecord(clientId: int): (r: ClientRecord)
    ensures r.clientId == clientId
    ensures r.frescoPartyId == -1 && r.frescoPort == -1 && !r.isReadyForAuctionEvaluation
    ensures !PortAvailable(r)
  {
    ClientRecord(clientId, -1, false, -1)
  }

  /** `frescoPortAvailable` on a snapshot: only negative ports mean "not provided". */
  predicate PortAvailable(r: ClientRecord) {
    r.frescoPort > -1
  }

  class ClientData {
    const clientId: int
    var frescoPartyId: int
    var isReadyForAuctionEvaluation: bool
    var frescoPort: int

    /** A new record: no party id, no port, not ready. */
    constructor (clientId: int)
      ensures Record() == FreshRecord(clientId)
    {
      this.clientId := clientId;
      frescoPartyId := -1;
      isReadyForAuctionEvaluation := false;
      frescoPort := -1;
    }

    /** The current values of the record. */
    function Record(): (r: ClientRecord)
      reads this
      ensures r.clientId == clientId
    {
      ClientRecord(clientId, frescoPartyId, isReadyForAuctionEvaluation, frescoPort)
    }

    /** Whether the member has provided a port; port 0 counts as provided. */
    function FrescoPortAvailable(): (r: bool)
      reads this
      ensures r <==> frescoPort >= 0
      ensures r == PortAvailable(Record())
    {
      frescoPort > -1
    }

    method SetFrescoPartyId(id: int)
      modifies this`frescoPartyId
      ensures Record() == old(Record()).(frescoPartyId := id)
    {
      frescoPartyId := id;
    }

    method SetFrescoPort(port: int)
      modifies this`frescoPort
      ensures Record() == old(Record()).(frescoPort := port)
    {
      frescoPort := port;
    }

    method SetReadyForAuctionEvaluation(ready: bool)
      modifies this`isReadyForAuctionEvaluation
      ensures Record() == old(Record()).(isReadyForAuctionEvaluation := ready)
    {
      isReadyForAuctionEvaluation := ready;
    }
  }
}
