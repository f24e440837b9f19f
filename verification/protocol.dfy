/**
 * The messages host and members exchange during an auction (auction-platform
 * protocol package) and the FRESCO `Party` triple both sides build their
 * network configuration from.
 */
module Protocol {
  import opened Auctions

  /** The protocol suites the evaluation can run on. */
  datatype ProtocolSuite = Spdz | DummyArithmetic

  /** The preprocessing strategies for the Spdz suite. */
  datatype Preprocessing = Mascot | Dummy

  /** One message of the auction protocol, sent over a host-member connection. */
  datatype Message =
    | Register(clientId: int)
    | RequestConnectionData
    | ResponseConnectionData(frescoPort: int)
    | AuctionConfiguration(partyId: int, auctionType: AuctionType, protocolSuite: ProtocolSuite,
                           preprocessing: Preprocessing, connectionData: seq<string>)
    | AuctionReady
    | RequestAuctionStart
    | ResponseAuctionStart

  /** A participant of the evaluation network: its party id and where it listens. */
  datatype Party = Party(partyId: int, hostname: string, port: int)
}
