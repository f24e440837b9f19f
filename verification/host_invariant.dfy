/**
 * The host keeps its protocol invariant: the initial host satisfies
 * `Consistent`, and every event applied to a consistent host gives a
 * consistent host. With it come the guarantees the protocol rests on:
 * distinct client ids, party ids 1..n without gaps or repeats, a connection
 * table that agrees with what members reported, start requests sent one at a
 * time in descending party-id order, and one listener call per auction.
 */
module HostInvariant {
  import opened Wrappers
  import opened Decimal
  import opened Auctions
  import opened Protocol
  import opened ConnectionData
  import opened ClientDataRecord
  import opened HostProtocol

  lemma InitialConsistent()
    ensures Consistent(Initial())
  {
    assert StartRequests([]) == [];
  }

  lemma RunConsistent(h: Host, serverStarted: bool)
    requires Consistent(h) && h.state == Unstarted && !h.stopped
    ensures Consistent(Run(h, serverStarted))
  {
  }

  // ---------------------------------------------------------------------------
  // received
  // ---------------------------------------------------------------------------

  /** A `Register` adds a record only for a client id no record carries, so client ids stay distinct. */
  lemma RegisterConsistent(h: Host, conn: int, clientId: int)
    requires Consistent(h) && h.state == Registration && !h.stopped
    ensures Consistent(ReceivedRegister(h, conn, clientId))
  {
    var r := ReceivedRegister(h, conn, clientId);
    if !ClientIdTaken(h.records, clientId) {
      assert r.records == h.records[conn := FreshRecord(clientId)];
      forall c, d | c in r.records && d in r.records && c != d
        ensures r.records[c].clientId != r.records[d].clientId
      {
        if c != conn && d != conn {
          assert r.records[c] == h.records[c] && r.records[d] == h.records[d];
        }
      }
    }
  }

  /** A port reported in SMPC_SetUp changes one record's port; the latch opens once every port is in. */
  lemma PortResponseConsistent(h: Host, conn: int, port: int)
    requires Consistent(h) && h.state == SMPC_SetUp && !h.stopped
    ensures Consistent(ReceivedConnectionData(h, conn, port))
  {
    var r := ReceivedConnectionData(h, conn, port);
    if conn in h.records {
      assert forall c :: c in r.records ==> r.records[c].clientId == h.records[c].clientId;
      assert forall c :: c in r.records ==> r.records[c].frescoPartyId == -1;
    }
  }

  /** A ready report in SMPC_SetUpFinish changes one record's flag; party ids and ports stay as assigned. */
  lemma ReadyResponseConsistent(h: Host, conn: int)
    requires Consistent(h) && h.state == SMPC_SetUpFinish && !h.stopped
    ensures Consistent(ReceivedAuctionReady(h, conn))
  {
    var r := ReceivedAuctionReady(h, conn);
    if conn in h.records {
      forall c | c in r.records
        ensures r.records[c].clientId == h.records[c].clientId
        ensures r.records[c].frescoPartyId == h.records[c].frescoPartyId
        ensures r.records[c].frescoPort == h.records[c].frescoPort
      {
      }
      assert PartyIdsOf(r.records) == PartyIdsOf(h.records);
      PartiesAssignedFrame(h.records, r.records, h.network);
    }
  }

  /** Records that agree on party ids and ports are assigned alike. */
  lemma PartiesAssignedFrame(records: map<int, ClientRecord>, records': map<int, ClientRecord>, network: map<int, Party>)
    requires PartiesAssigned(records, network)
    requires records'.Keys == records.Keys
    requires forall c :: c in records ==> records'[c].frescoPartyId == records[c].frescoPartyId
    requires forall c :: c in records ==> records'[c].frescoPort == records[c].frescoPort
    ensures PartiesAssigned(records', network)
  {
    forall id | id in network && id != 1 ensures exists c :: c in records' && records'[c].frescoPartyId == id {
      var c :| c in records && records[c].frescoPartyId == id;
      assert c in records';
    }
  }

  /** Asking the next member to start extends the start requests by exactly that member. */
  lemma AskNext(sent: seq<(int, Message)>, c: int)
    ensures StartRequests(sent + [(c, RequestAuctionStart)]) == StartRequests(sent) + [c]
  {
    StartRequestsAppend(sent, [(c, RequestAuctionStart)]);
    assert [(c, RequestAuctionStart)][..0] == [];
  }

  /**
   * Popping the head of the starting order and asking the new head (or opening
   * the latch when none is left) keeps the start handshake: the members asked
   * so far followed by the rest of the order stay the same list.
   */
  lemma PopHandshake(h: Host, r: Host)
    requires StartHandshake(h) && h.state == SMPC_Running && h.startingOrder != []
    requires r.state == h.state && r.records == h.records && r.startingOrder == h.startingOrder[1..]
    requires r.startingOrder == [] ==> r.sent == h.sent && r.startComplete
    requires r.startingOrder != [] ==> r.sent == h.sent + [(r.startingOrder[0], RequestAuctionStart)] && !r.startComplete
    ensures StartHandshake(r)
  {
    var rest := r.startingOrder;
    if rest != [] {
      AskNext(h.sent, rest[0]);
      assert [rest[0]] + rest[1..] == rest;
      assert StartRequests(r.sent) + Tail(rest) == StartRequests(h.sent) + Tail(h.startingOrder);
    }
  }

  /** Only the start handshake depends on the starting order, the sent messages and the start latch. */
  lemma HandshakeFrame(h: Host, r: Host)
    requires Consistent(h) && StartHandshake(r)
    requires r.(startingOrder := h.startingOrder, sent := h.sent, startComplete := h.startComplete) == h
    ensures Consistent(r)
  {
  }

  /** A start response from the head pops it and asks the new head; any other is ignored. */
  lemma StartResponseConsistent(h: Host, conn: int)
    requires Consistent(h) && h.state == SMPC_Running && !h.stopped
    ensures Consistent(ReceivedAuctionStart(h, conn))
  {
    var r := ReceivedAuctionStart(h, conn);
    if h.startingOrder != [] && h.startingOrder[0] == conn {
      var rest := h.startingOrder[1..];
      assert r == if rest == [] then h.(startingOrder := rest, startComplete := true)
                  else h.(startingOrder := rest, sent := h.sent + [(rest[0], RequestAuctionStart)]);
      PopHandshake(h, r);
      HandshakeFrame(h, r);
    } else {
      assert r == h;
    }
  }

  lemma ReceivedConsistent(h: Host, conn: int, msg: Message)
    requires Consistent(h) && h.state != Unstarted && !h.stopped
    ensures Consistent(Received(h, conn, msg))
  {
    match msg
    case Register(clientId) =>
      if h.state == Registration { RegisterConsistent(h, conn, clientId); }
    case ResponseConnectionData(port) =>
      if h.state == SMPC_SetUp { PortResponseConsistent(h, conn, port); }
    case AuctionReady =>
      if h.state == SMPC_SetUpFinish { ReadyResponseConsistent(h, conn); }
    case ResponseAuctionStart =>
      if h.state == SMPC_Running { StartResponseConsistent(h, conn); }
    case _ =>
  }

  lemma DisconnectedConsistent(h: Host, conn: int)
    requires Consistent(h) && !h.stopped
    ensures Consistent(Disconnected(h, conn).0)
  {
  }

  // ---------------------------------------------------------------------------
  // Phase ends
  // ---------------------------------------------------------------------------

  /** Messages other than start requests leave the start requests of a log unchanged. */
  lemma SendNoStartRequests(sent: seq<(int, Message)>, more: seq<(int, Message)>)
    requires forall i :: 0 <= i < |more| ==> more[i].1 != RequestAuctionStart
    ensures StartRequests(sent + more) == StartRequests(sent)
  {
    StartRequestsAppend(sent, more);
    NoStartRequests(more);
  }

  lemma RegistrationEndsConsistent(h: Host, keyOrder: seq<int>)
    requires Consistent(h) && h.state == Registration && !h.stopped
    requires IsEnumeration(keyOrder, h.records.Keys)
    ensures Consistent(RegistrationEnds(h, keyOrder))
  {
    if h.records != map[] {
      var r := RegistrationEnds(h, keyOrder);
      SendNoStartRequests(h.sent, Broadcast(keyOrder, RequestConnectionData));
      EnumerationWitness(keyOrder, h.records.Keys);
      var c := keyOrder[0];
      assert !PortAvailable(h.records[c]);
      assert !AllPortsAvailable(r.records);
    }
  }

  /**
   * `setUpParties` on members that all hold -1: the resolved connections, taken
   * in shuffled order, get 2, 3, ... and the network lists them with the host.
   */
  lemma SetUpPartiesAssigned(records: map<int, ClientRecord>, res: seq<int>, host: Party, ipOf: map<int, string>)
    requires host.partyId == 1
    requires Distinct(res) && forall c :: c in res ==> c in records
    requires forall c :: c in records ==> records[c].frescoPartyId == -1
    ensures PartiesAssigned(WithPartyIds(records, AssignedIds(res)), PartyTable(host, res, ipOf, PortsOf(records)))
  {
    var ids := AssignedIds(res);
    var records' := WithPartyIds(records, ids);
    var network := PartyTable(host, res, ipOf, PortsOf(records));
    PartyTableKeys(host, res, ipOf, PortsOf(records));
    PartyTableShape(host, res, ipOf, PortsOf(records));
    PartyTableEntries(host, res, ipOf, PortsOf(records));
    AssignedIdsAt(res);
    // the index in `res` of every member that got an id
    assert forall c :: c in ids ==> exists j :: 0 <= j < |res| && res[j] == c;
    forall c | c in records'
      ensures records'[c].frescoPort == records[c].frescoPort
      ensures records'[c].frescoPartyId == -1 || exists j :: 0 <= j < |res| && res[j] == c && records'[c].frescoPartyId == j + 2
    {
      if c in ids {
        var j :| 0 <= j < |res| && res[j] == c;
        assert records'[c].frescoPartyId == j + 2;
      }
    }
    forall c, d | c in records' && d in records' && c != d && records'[c].frescoPartyId != -1
      ensures records'[c].frescoPartyId != records'[d].frescoPartyId
    {
      var i :| 0 <= i < |res| && res[i] == c && records'[c].frescoPartyId == i + 2;
      if records'[d].frescoPartyId != -1 {
        var j :| 0 <= j < |res| && res[j] == d && records'[d].frescoPartyId == j + 2;
      }
    }
    forall id | id in network && id != 1 ensures exists c :: c in records' && records'[c].frescoPartyId == id {
      var c := res[id - 2];
      assert records'[c].frescoPartyId == id;
    }
    forall c | c in records' && records'[c].frescoPartyId != -1
      ensures network[records'[c].frescoPartyId].port == records'[c].frescoPort
    {
      var j :| 0 <= j < |res| && res[j] == c && records'[c].frescoPartyId == j + 2;
      assert network[j + 2].port == PortsOf(records)[res[j]];
    }
  }

  /** Shutting down with an error keeps the invariant, before Closure. */
  lemma AbortConsistent(h: Host, errorMessage: string)
    requires Consistent(h) && !h.stopped && h.state != Closure
    ensures Consistent(Abort(h, errorMessage))
  {
    assert h.calls == [];
  }

  /** Entering SMPC_SetUpFinish with the party ids assigned keeps the invariant. */
  lemma SetUpFinishEntered(h: Host, h1: Host, c: int)
    requires Consistent(h) && h.state == SMPC_SetUp && !h.stopped && c in h.records
    requires h1 == h.(state := SMPC_SetUpFinish, records := h1.records, network := h1.network)
    requires h1.records.Keys == h.records.Keys
    requires forall c :: c in h.records ==> h1.records[c].clientId == h.records[c].clientId
    requires forall c :: c in h.records ==> h1.records[c].isReadyForAuctionEvaluation == h.records[c].isReadyForAuctionEvaluation
    requires PartiesAssigned(h1.records, h1.network)
    ensures Consistent(h1)
  {
    assert !h1.records[c].isReadyForAuctionEvaluation;
  }

  lemma SetUpPartiesConsistent(h: Host, config: ServerConfiguration, shuffled: seq<int>, ipOf: map<int, string>)
    requires Consistent(h) && h.state == SMPC_SetUp && !h.stopped
    requires IsEnumeration(shuffled, h.records.Keys) && WithinKeys(shuffled, h.records.Keys)
    ensures Consistent(SetUpParties(h, config, shuffled, ipOf))
  {
    var res := Resolved(shuffled, ipOf);
    EnumerationDistinct(shuffled, h.records.Keys);
    ResolvedDistinct(shuffled, ipOf);
    SetUpPartiesAssigned(h.records, res, HostParty(config), ipOf);
    WithPartyIdsKeeps(h.records, AssignedIds(res));
    EnumerationWitness(shuffled, h.records.Keys);
    SetUpFinishEntered(h, SetUpParties(h, config, shuffled, ipOf), shuffled[0]);
  }

  /** Storing party ids changes no client id and no ready flag. */
  lemma WithPartyIdsKeeps(records: map<int, ClientRecord>, ids: map<int, int>)
    ensures forall c :: c in records ==>
      && WithPartyIds(records, ids)[c].clientId == records[c].clientId
      && WithPartyIds(records, ids)[c].isReadyForAuctionEvaluation == records[c].isReadyForAuctionEvaluation
  {
  }

  /** Sending the configuration sends no start request; too few parties abort. */
  lemma DistributeConfigConsistent(h: Host, config: ServerConfiguration, keyOrder: seq<int>)
    requires Consistent(h) && h.state == SMPC_SetUpFinish && !h.stopped
    requires forall id :: 1 <= id <= |h.network| ==> id in h.network
    requires WithinKeys(keyOrder, h.records.Keys)
    ensures Consistent(DistributeConfig(h, config, keyOrder))
  {
    if |h.network| > 1 {
      var more := ConfigMessages(keyOrder, PartyIdsOf(h.records), config, ConnectionTable(h.network, |h.network|));
      SendNoStartRequests(h.sent, more);
      HandshakeFrame(h, DistributeConfig(h, config, keyOrder));
    } else {
      AbortConsistent(h, PartiesBelowTwo);
    }
  }

  lemma SmpcSetUpEndsConsistent(h: Host, config: ServerConfiguration, shuffled: seq<int>, ipOf: map<int, string>,
                                keyOrder: seq<int>)
    requires Consistent(h) && h.state == SMPC_SetUp && !h.stopped
    requires IsEnumeration(shuffled, h.records.Keys)
    requires WithinKeys(shuffled, h.records.Keys) && WithinKeys(keyOrder, h.records.Keys)
    ensures Consistent(SmpcSetUpEnds(h, config, shuffled, ipOf, keyOrder))
  {
    if !h.setUpComplete {
      AbortConsistent(h, NoConnectionData);
    } else {
      SetUpPartiesConsistent(h, config, shuffled, ipOf);
      DistributeConfigConsistent(SetUpParties(h, config, shuffled, ipOf), config, keyOrder);
    }
  }

  /** Entering SMPC_Running asks the first member of a starting order that lists every member. */
  lemma SmpcRunningConsistent(h: Host, entryOrder: seq<int>)
    requires Consistent(h) && h.state == SMPC_SetUpFinish && !h.stopped && h.setUpFinishComplete
    requires IsEnumeration(entryOrder, h.records.Keys)
    ensures Consistent(SmpcRunning(h.(state := SMPC_Running), entryOrder))
  {
    var order := StartingOrder(entryOrder, PartyIdsOf(h.records));
    StartingOrderDescending(entryOrder, PartyIdsOf(h.records));
    EnumerationWitness(entryOrder, h.records.Keys);
    assert entryOrder[0] in multiset(order);
    AskNext(h.sent, order[0]);
    assert StartRequests(h.sent + [(order[0], RequestAuctionStart)]) + Tail(order) == order;
  }

  lemma SmpcSetUpFinishEndsConsistent(h: Host, entryOrder: seq<int>)
    requires Consistent(h) && h.state == SMPC_SetUpFinish && !h.stopped
    requires IsEnumeration(entryOrder, h.records.Keys)
    ensures Consistent(SmpcSetUpFinishEnds(h, entryOrder))
  {
    if h.setUpFinishComplete {
      SmpcRunningConsistent(h, entryOrder);
    }
  }

  lemma SmpcRunningEndsConsistent(h: Host, result: Option<AuctionResult>, winnerClientId: int)
    requires Consistent(h) && h.state == SMPC_Running && !h.stopped
    ensures Consistent(SmpcRunningEnds(h, result, winnerClientId))
  {
    assert h.calls == [];
  }

  lemma ClosureEndsConsistent(h: Host)
    requires Consistent(h) && h.state == Closure && !h.stopped
    ensures Consistent(ClosureEnds(h))
  {
  }

  // ---------------------------------------------------------------------------
  // What the invariant guarantees
  // ---------------------------------------------------------------------------

  /**
   * The winner's client id: a party id held by no member, such as the host's
   * own id 1, gives -1; any other party id of the network gives the client id of
   * the one member holding it.
   */
  lemma WinnerClientId(h: Host, winnerId: int, clientId: int)
    requires Consistent(h) && h.state in {SMPC_Running, Closure}
    requires ClientIdOf(h.records, winnerId, clientId)
    ensures winnerId != -1 && (winnerId == 1 || winnerId !in h.network) ==> clientId == -1
    ensures winnerId in h.network && winnerId != 1 ==>
              exists c :: c in h.records && h.records[c].frescoPartyId == winnerId && h.records[c].clientId == clientId
                          && forall d :: d in h.records && d != c ==> h.records[d].frescoPartyId != winnerId
  {
    if winnerId in h.network && winnerId != 1 {
      var c :| c in h.records && h.records[c].frescoPartyId == winnerId && h.records[c].clientId == clientId;
      assert forall d :: d in h.records && d != c ==> h.records[d].frescoPartyId != winnerId;
    } else if winnerId != -1 {
      assert forall c :: c in h.records ==> h.records[c].frescoPartyId != winnerId;
    }
  }

  /**
   * The connection table the host sends parses, at every member, back into the
   * host's network (with the address rewritten on an emulator), provided no
   * address contains ':' and ids and ports fit in a Java `int`.
   */
  lemma ConnectionTableRoundTrip(h: Host, isEmulator: bool)
    requires Consistent(h) && h.state in {SMPC_SetUpFinish, SMPC_Running, Closure}
    requires |h.network| <= IntMax
    requires forall id :: id in h.network ==> ':' !in h.network[id].hostname && IsInt32(h.network[id].port)
    ensures ParseTable(ConnectionTable(h.network, |h.network|), isEmulator) == Some(Rehost(h.network, isEmulator))
  {
    assert WellFormedParties(h.network, |h.network|);
    ParseConnectionTable(h.network, |h.network|, isEmulator);
  }

  /**
   * Once the evaluation has run, every member was asked to start exactly once,
   * in descending order of party id.
   */
  lemma EveryMemberAskedOnce(h: Host)
    requires Consistent(h) && h.state == Closure
    ensures IsEnumeration(StartRequests(h.sent), h.records.Keys)
    ensures DescendingPartyIds(StartRequests(h.sent), PartyIdsOf(h.records))
  {
    assert StartRequests(h.sent) + Tail(h.startingOrder) == StartRequests(h.sent);
  }
}
