/**
 * The host of one auction (auction-platform ServerWorker) as a stateful object:
 * its fields are those of the Java class, each registered member is a
 * `ClientData` object updated in place, and each listener callback and each
 * phase end is a method. Every method is proved against the event of the same
 * name in `HostProtocol`, on the host's value `View()`, and keeps the protocol
 * invariant `Consistent` proved in `HostInvariant`.
 */
module ServerWorkers {
  import opened Wrappers
  import opened Auctions
  import opened Protocol
  import opened ConnectionData
  import opened ClientDataRecord
  import opened HostProtocol
  import HostInvariant

  /**
   * The loop of `configToStringArray`: an array of `n` entries whose entry i is
   * party i + 1 in the "id:host:port" format.
   */
  method FillConnectionTable(network: map<int, Party>, n: nat) returns (mapping: seq<string>)
    requires forall id :: 1 <= id <= n ==> id in network
    ensures mapping == ConnectionTable(network, n)
  {
    var a := new string[n];
    ghost var table := ConnectionTable(network, n);
    for i := 0 to n
      invariant a[..i] == table[..i]
    {
      var partyId := i + 1;
      var party := network[partyId];
      a[i] := FormatEntry(party);
    }
    mapping := a[..];
    assert mapping == a[..n];
  }

  class ServerWorker {
    const config: ServerConfiguration
    var state: State
    /** `shutdown` ran: the message server and the phase thread are stopped. */
    var stopped: bool
    /** Registered members by connection id. */
    var registeredClients: map<int, ClientData>
    /** The values of the registered records, kept equal to the objects' fields by `Valid`. */
    ghost var records: map<int, ClientRecord>
    var smpcSetUpComplete: bool
    var smpcSetupFinishComplete: bool
    var auctionStartComplete: bool
    /** The parties of the evaluation network by party id; the host itself is party 1. */
    var networkConfig: map<int, Party>
    /** The connections still to start, head first. */
    var startingOrder: seq<int>
    /** Messages sent, as (connection id, message). */
    var sent: seq<(int, Message)>
    /** Connections the host closed. */
    var closed: seq<int>
    /** Calls of the `WorkerListener`. */
    var listenerCalls: seq<ListenerCall>

    /** The host as a value. */
    ghost function View(): Host
      reads this
    {
      Host(state, stopped, records, smpcSetUpComplete, smpcSetupFinishComplete, auctionStartComplete,
           networkConfig, startingOrder, sent, closed, listenerCalls)
    }

    /**
     * Each registered connection has a record object of its own, and `records`
     * holds the current values of those objects.
     */
    ghost predicate Valid()
      reads this`registeredClients, this`records, registeredClients.Values
    {
      registeredClients.Keys == records.Keys &&
      (forall c :: c in registeredClients ==> registeredClients[c].Record() == records[c]) &&
      (forall c, d :: c in registeredClients && d in registeredClients && c != d ==>
         registeredClients[c] != registeredClients[d])
    }

    constructor (config: ServerConfiguration)
      ensures Valid() && this.config == config
      ensures View() == Initial() && Consistent(View())
    {
      this.config := config;
      state := Unstarted;
      stopped := false;
      registeredClients := map[];
      records := map[];
      smpcSetUpComplete, smpcSetupFinishComplete, auctionStartComplete := false, false, false;
      networkConfig := map[];
      startingOrder := [];
      sent, closed, listenerCalls := [], [], [];
      new;
      HostInvariant.InitialConsistent();
    }

    // -------------------------------------------------------------------------
    // Queries
    // -------------------------------------------------------------------------

    /** `clientAlreadyRegistered`: whether some registered record carries the client id. */
    predicate ClientAlreadyRegistered(clientId: int)
      requires Valid()
      reads this`registeredClients, this`records, registeredClients.Values
      ensures ClientAlreadyRegistered(clientId) <==> ClientIdTaken(records, clientId)
    {
      exists c :: c in registeredClients && registeredClients[c].clientId == clientId
    }

    /** `allConnectionDataReceived`: whether every registered member has reported a port. */
    predicate AllConnectionDataReceived()
      requires Valid()
      reads this`registeredClients, this`records, registeredClients.Values
      ensures AllConnectionDataReceived() <==> AllPortsAvailable(records)
    {
      forall c :: c in registeredClients ==> registeredClients[c].FrescoPortAvailable()
    }

    /** `allClientsReady`: whether every registered member has reported ready. */
    predicate AllClientsReady()
      requires Valid()
      reads this`registeredClients, this`records, registeredClients.Values
      ensures AllClientsReady() <==> AllReady(records)
    {
      forall c :: c in registeredClients ==> registeredClients[c].isReadyForAuctionEvaluation
    }

    /** The party id each registered record holds. */
    function PartyIds(): (ids: map<int, int>)
      requires Valid()
      reads this`registeredClients, this`records, registeredClients.Values
      ensures ids == PartyIdsOf(records)
    {
      var ids := map c | c in registeredClients :: registeredClients[c].frescoPartyId;
      assert forall c :: c in registeredClients ==> registeredClients[c].Record() == records[c];
      ids
    }

    /**
     * `findClientIdByPartyId`: the client id of the first record, in the map's
     * iteration order `valueOrder`, that holds the party id, or -1 when none does.
     */
    method FindClientIdByPartyId(partyId: int, valueOrder: seq<int>) returns (clientId: int)
      requires Valid() && ListsKeys(valueOrder, registeredClients.Keys)
      ensures Valid() && ClientIdOf(records, partyId, clientId)
    {
      for i := 0 to |valueOrder|
        invariant forall j :: 0 <= j < i ==> records[valueOrder[j]].frescoPartyId != partyId
      {
        var connectionId := valueOrder[i];
        var clientData := registeredClients[connectionId];
        assert clientData.Record() == records[connectionId];
        if clientData.frescoPartyId == partyId {
          return clientData.clientId;
        }
      }
      forall c | c in records
        ensures records[c].frescoPartyId != partyId
      {
        var j :| 0 <= j < |valueOrder| && valueOrder[j] == c;
      }
      return -1;
    }

    /**
     * `configToStringArray`: one "id:host:port" entry per party, entry i for party
     * i + 1, filled into an array of the network's size.
     */
    method ConfigToStringArray() returns (mapping: seq<string>)
      requires forall id :: 1 <= id <= |networkConfig| ==> id in networkConfig
      ensures mapping == ConnectionTable(networkConfig, |networkConfig|)
    {
      mapping := FillConnectionTable(networkConfig, |networkConfig|);
    }

    // -------------------------------------------------------------------------
    // Updates of one record
    // -------------------------------------------------------------------------

    method SetClientPort(c: int, port: int)
      requires Valid() && c in registeredClients
      modifies this`records, registeredClients.Values`frescoPort
      ensures Valid() && records == old(records)[c := old(records)[c].(frescoPort := port)]
    {
      registeredClients[c].SetFrescoPort(port);
      records := records[c := records[c].(frescoPort := port)];
    }

    method SetClientReady(c: int)
      requires Valid() && c in registeredClients
      modifies this`records, registeredClients.Values`isReadyForAuctionEvaluation
      ensures Valid() && records == old(records)[c := old(records)[c].(isReadyForAuctionEvaluation := true)]
    {
      registeredClients[c].SetReadyForAuctionEvaluation(true);
      records := records[c := records[c].(isReadyForAuctionEvaluation := true)];
    }

    method SetClientPartyId(c: int, partyId: int)
      requires Valid() && c in registeredClients
      modifies this`records, registeredClients.Values`frescoPartyId
      ensures Valid() && records == old(records)[c := old(records)[c].(frescoPartyId := partyId)]
    {
      registeredClients[c].SetFrescoPartyId(partyId);
      records := records[c := records[c].(frescoPartyId := partyId)];
    }

    /** `changeToErrorState`: report the error and shut down; the state is kept. */
    method ChangeToErrorState(errorMessage: string)
      requires Valid()
      modifies this`stopped, this`listenerCalls
      ensures Valid() && stopped && listenerCalls == old(listenerCalls) + [OnError(errorMessage)]
    {
      listenerCalls := listenerCalls + [OnError(errorMessage)];
      stopped := true;
    }

    // -------------------------------------------------------------------------
    // Listener callbacks
    // -------------------------------------------------------------------------

    /** `run`: enter Registration once the message server runs, otherwise abort. */
    method Run(serverStarted: bool)
      requires Valid() && state == Unstarted && !stopped
      modifies this`state, this`stopped, this`listenerCalls
      ensures Valid() && View() == HostProtocol.Run(old(View()), serverStarted)
      ensures Consistent(old(View())) ==> Consistent(View())
    {
      ghost var h := View();
      if serverStarted {
        state := Registration;
      } else {
        ChangeToErrorState(ServerNotStarted);
      }
      assert View() == HostProtocol.Run(h, serverStarted);
      if Consistent(h) {
        HostInvariant.RunConsistent(h, serverStarted);
      }
    }

    /** `received` in Registration: a `Register` from a client id not yet registered adds a record. */
    method ReceivedRegister(connectionId: int, clientId: int)
      requires Valid() && state == Registration && !stopped
      modifies this`registeredClients, this`records, this`closed
      ensures Valid() && View() == HostProtocol.ReceivedRegister(old(View()), connectionId, clientId)
    {
      var clientData := new ClientData(clientId);
      if ClientAlreadyRegistered(clientData.clientId) {
        closed := closed + [connectionId];
      } else {
        registeredClients := registeredClients[connectionId := clientData];
        records := records[connectionId := FreshRecord(clientId)];
      }
    }

    /** `received` in SMPC_SetUp: a reported port is stored; the latch opens once every port is in. */
    method ReceivedConnectionData(connectionId: int, frescoPort: int)
      requires Valid() && state == SMPC_SetUp && !stopped
      modifies this`smpcSetUpComplete, this`closed, this`records, registeredClients.Values`frescoPort
      ensures Valid() && View() == HostProtocol.ReceivedConnectionData(old(View()), connectionId, frescoPort)
    {
      if connectionId in registeredClients {
        SetClientPort(connectionId, frescoPort);
        ghost var h := View();
        if AllConnectionDataReceived() {
          smpcSetUpComplete := true;
        }
        assert View() == h.(setUpComplete := h.setUpComplete || AllPortsAvailable(h.records));
      } else {
        closed := closed + [connectionId];
      }
    }

    /** `received` in SMPC_SetUpFinish: a member reports ready; the latch opens once every member is. */
    method ReceivedAuctionReady(connectionId: int)
      requires Valid() && state == SMPC_SetUpFinish && !stopped
      modifies this`smpcSetupFinishComplete, this`closed, this`records, registeredClients.Values`isReadyForAuctionEvaluation
      ensures Valid() && View() == HostProtocol.ReceivedAuctionReady(old(View()), connectionId)
    {
      if connectionId in registeredClients {
        SetClientReady(connectionId);
        ghost var h := View();
        if AllClientsReady() {
          smpcSetupFinishComplete := true;
        }
        assert View() == h.(setUpFinishComplete := h.setUpFinishComplete || AllReady(h.records));
      } else {
        closed := closed + [connectionId];
      }
    }

    /**
     * `received` in SMPC_Running: the head of the starting order has started; it
     * is popped, and the next one is asked to start or, with none left, the latch opens.
     */
    method ReceivedAuctionStart(connectionId: int)
      requires Valid() && state == SMPC_Running && !stopped
      modifies this`startingOrder, this`auctionStartComplete, this`sent
      ensures Valid() && View() == HostProtocol.ReceivedAuctionStart(old(View()), connectionId)
    {
      if startingOrder != [] && startingOrder[0] == connectionId {
        startingOrder := startingOrder[1..];
        if startingOrder == [] {
          auctionStartComplete := true;
        } else {
          sent := sent + [(startingOrder[0], RequestAuctionStart)];
        }
      }
    }

    /** `received`: a message from connection `connectionId`; each state acts on one kind of message only. */
    method Received(connectionId: int, msg: Message)
      requires Valid() && state != Unstarted && !stopped
      modifies this, registeredClients.Values
      ensures Valid() && View() == HostProtocol.Received(old(View()), connectionId, msg)
      ensures Consistent(old(View())) ==> Consistent(View())
    {
      ghost var h := View();
      match state {
        case Registration =>
          if msg.Register? {
            ReceivedRegister(connectionId, msg.clientId);
          }
        case SMPC_SetUp =>
          if msg.ResponseConnectionData? {
            ReceivedConnectionData(connectionId, msg.frescoPort);
          }
        case SMPC_SetUpFinish =>
          if msg.AuctionReady? {
            ReceivedAuctionReady(connectionId);
          }
        case SMPC_Running =>
          if msg.ResponseAuctionStart? {
            ReceivedAuctionStart(connectionId);
          }
        case _ =>
      }
      assert View() == HostProtocol.Received(h, connectionId, msg);
      if Consistent(h) {
        HostInvariant.ReceivedConsistent(h, connectionId, msg);
      }
    }

    /**
     * `disconnected`: during Registration the connection's record is removed.
     * `nullDereference` reports that there was no record, where the Java code
     * dereferences the null that `remove` returned.
     */
    method Disconnected(connectionId: int) returns (nullDereference: bool)
      requires Valid() && !stopped
      modifies this`registeredClients, this`records
      ensures Valid() && (View(), nullDereference) == HostProtocol.Disconnected(old(View()), connectionId)
      ensures Consistent(old(View())) ==> Consistent(View())
    {
      ghost var h := View();
      nullDereference := false;
      if state == Registration {
        if connectionId in registeredClients {
          registeredClients := registeredClients - {connectionId};
          records := records - {connectionId};
        } else {
          nullDereference := true;
        }
      }
      assert (View(), nullDereference) == HostProtocol.Disconnected(h, connectionId);
      if Consistent(h) {
        HostInvariant.DisconnectedConsistent(h, connectionId);
      }
    }

    // -------------------------------------------------------------------------
    // Phase ends
    // -------------------------------------------------------------------------

    /** `requestSMPCPorts`: a `RequestConnectionData` to every member, in the map's iteration order. */
    method RequestSmpcPorts(keyOrder: seq<int>)
      requires Valid()
      modifies this`sent
      ensures Valid() && sent == old(sent) + Broadcast(keyOrder, RequestConnectionData)
    {
      for i := 0 to |keyOrder|
        invariant sent == old(sent) + Broadcast(keyOrder[..i], RequestConnectionData)
      {
        assert keyOrder[..i + 1][..i] == keyOrder[..i];
        sent := sent + [(keyOrder[i], RequestConnectionData)];
      }
      assert keyOrder[..|keyOrder|] == keyOrder;
    }

    /** End of the registration sleep (`registration`, then `smpcSetUp` up to its wait). */
    method RegistrationEnds(keyOrder: seq<int>)
      requires Valid() && state == Registration && !stopped
      modifies this`state, this`sent, this`stopped, this`listenerCalls
      ensures Valid() && View() == HostProtocol.RegistrationEnds(old(View()), keyOrder)
      ensures Consistent(old(View())) && IsEnumeration(keyOrder, old(registeredClients.Keys)) ==> Consistent(View())
    {
      ghost var h := View();
      if registeredClients != map[] {
        state := SMPC_SetUp;
        RequestSmpcPorts(keyOrder);
      } else {
        ChangeToErrorState(NoClientsRegistered);
      }
      assert View() == HostProtocol.RegistrationEnds(h, keyOrder);
      if Consistent(h) && IsEnumeration(keyOrder, h.records.Keys) {
        HostInvariant.RegistrationEndsConsistent(h, keyOrder);
      }
    }

    /**
     * The loop of `setUpParties`: the host becomes party 1; walking the shuffled
     * connections, each whose address resolves becomes the next party, and its
     * record stores that party id.
     */
    method AssignParties(shuffled: seq<int>, ipOf: map<int, string>) returns (parties: map<int, Party>)
      requires Valid() && WithinKeys(shuffled, registeredClients.Keys)
      modifies this`records, registeredClients.Values`frescoPartyId
      ensures Valid()
      ensures parties == PartyTable(HostParty(config), Resolved(shuffled, ipOf), ipOf, PortsOf(old(records)))
      ensures records == WithPartyIds(old(records), AssignedIds(Resolved(shuffled, ipOf)))
    {
      ghost var records0 := records;
      ghost var ports := PortsOf(records);
      var serverParty := HostParty(config);
      parties := map[serverParty.partyId := serverParty];
      var nextPartyId := 2;
      ghost var res: seq<int> := [];
      ghost var ids: map<int, int> := map[];
      for i := 0 to |shuffled|
        invariant Valid()
        invariant res == Resolved(shuffled[..i], ipOf) && ids == AssignedIds(res)
        invariant nextPartyId == |res| + 2
        invariant forall c :: c in res ==> c in records0
        invariant parties == PartyTable(serverParty, res, ipOf, ports)
        invariant records == WithPartyIds(records0, ids)
      {
        var connectionId := shuffled[i];
        var clientIp := IpOf(ipOf, connectionId);
        if clientIp != "" {
          var clientSmpcPort := registeredClients[connectionId].frescoPort;
          assert registeredClients[connectionId].Record() == records[connectionId];
          assert clientSmpcPort == ports[connectionId];
          AssignStep(serverParty, records0, shuffled, i, ipOf, ports, res, ids);
          var party := Party(nextPartyId, clientIp, clientSmpcPort);
          parties := parties[party.partyId := party];
          SetClientPartyId(connectionId, party.partyId);
          nextPartyId := nextPartyId + 1;
          res := res + [connectionId];
          ids := ids[connectionId := party.partyId];
        } else {
          ResolvedStep(shuffled, i, ipOf);
        }
      }
      assert shuffled[..|shuffled|] == shuffled;
    }

    /** `setUpParties`: assign the party ids, then install the network configuration. */
    method SetUpParties(shuffled: seq<int>, ipOf: map<int, string>)
      requires Valid() && state == SMPC_SetUpFinish && WithinKeys(shuffled, registeredClients.Keys)
      modifies this`networkConfig, this`records, registeredClients.Values`frescoPartyId
      ensures Valid() && View() == HostProtocol.SetUpParties(old(View()), config, shuffled, ipOf)
    {
      ghost var h := View();
      networkConfig := AssignParties(shuffled, ipOf);
      assert Valid();
      assert View() == h.(records := records, network := networkConfig);
    }

    /** `sendConfig`: each member's `AuctionConfiguration`, in the map's iteration order. */
    method SendConfig(keyOrder: seq<int>, mapping: seq<string>)
      requires Valid() && WithinKeys(keyOrder, registeredClients.Keys)
      modifies this`sent
      ensures Valid() && sent == old(sent) + ConfigMessages(keyOrder, PartyIdsOf(records), config, mapping)
    {
      ghost var partyIds := PartyIdsOf(records);
      for i := 0 to |keyOrder|
        invariant sent == old(sent) + ConfigMessages(keyOrder[..i], partyIds, config, mapping)
      {
        assert keyOrder[..i + 1][..i] == keyOrder[..i];
        var connectionId := keyOrder[i];
        var clientData := registeredClients[connectionId];
        assert clientData.Record() == records[connectionId];
        var auctionConfig := AuctionConfiguration(clientData.frescoPartyId, config.auctionType,
                                                  config.protocolSuite, config.preprocessing, mapping);
        sent := sent + [(connectionId, auctionConfig)];
      }
      assert keyOrder[..|keyOrder|] == keyOrder;
    }

    /**
     * End of the port wait (`smpcSetUp`), then `smpcSetUpFinish` up to its wait:
     * assign party ids and, with at least two parties, send the configuration.
     */
    method SmpcSetUpEnds(shuffled: seq<int>, ipOf: map<int, string>, keyOrder: seq<int>)
      requires Valid() && state == SMPC_SetUp && !stopped
      requires WithinKeys(shuffled, registeredClients.Keys) && WithinKeys(keyOrder, registeredClients.Keys)
      modifies this`state, this`networkConfig, this`records, this`sent, this`stopped, this`listenerCalls
      modifies registeredClients.Values`frescoPartyId
      ensures Valid() && View() == HostProtocol.SmpcSetUpEnds(old(View()), config, shuffled, ipOf, keyOrder)
      ensures Consistent(old(View())) && IsEnumeration(shuffled, old(registeredClients.Keys)) ==> Consistent(View())
    {
      ghost var h := View();
      if smpcSetUpComplete {
        SmpcSetUpFinish(shuffled, ipOf, keyOrder);
      } else {
        ChangeToErrorState(NoConnectionData);
      }
      assert View() == HostProtocol.SmpcSetUpEnds(h, config, shuffled, ipOf, keyOrder);
      if Consistent(h) && IsEnumeration(shuffled, h.records.Keys) {
        HostInvariant.SmpcSetUpEndsConsistent(h, config, shuffled, ipOf, keyOrder);
      }
    }

    /** `smpcSetUpFinish` up to its wait: assign party ids and, with at least two parties, send the configuration. */
    method SmpcSetUpFinish(shuffled: seq<int>, ipOf: map<int, string>, keyOrder: seq<int>)
      requires Valid() && WithinKeys(shuffled, registeredClients.Keys) && WithinKeys(keyOrder, registeredClients.Keys)
      modifies this`state, this`networkConfig, this`records, this`sent, this`stopped, this`listenerCalls
      modifies registeredClients.Values`frescoPartyId
      ensures Valid() && View() == HostProtocol.SmpcSetUpFinish(old(View()), config, shuffled, ipOf, keyOrder)
    {
      state := SMPC_SetUpFinish;
      SetUpParties(shuffled, ipOf);
      DistributeConfig(keyOrder);
    }

    /** The rest of `smpcSetUpFinish`: with at least two parties send the configuration, otherwise abort. */
    method DistributeConfig(keyOrder: seq<int>)
      requires Valid() && WithinKeys(keyOrder, registeredClients.Keys)
      requires forall id :: 1 <= id <= |networkConfig| ==> id in networkConfig
      modifies this`sent, this`stopped, this`listenerCalls
      ensures Valid() && View() == HostProtocol.DistributeConfig(old(View()), config, keyOrder)
    {
      if |networkConfig| > 1 {
        var mapping := ConfigToStringArray();
        SendConfig(keyOrder, mapping);
      } else {
        ChangeToErrorState(PartiesBelowTwo);
      }
    }

    /**
     * End of the ready wait (`smpcSetUpFinish`), then `smpcRunning` up to its wait:
     * set up the starting order (`setUpStartingOrder`) and ask its head to start.
     */
    method SmpcSetUpFinishEnds(entryOrder: seq<int>)
      requires Valid() && state == SMPC_SetUpFinish && !stopped
      modifies this`state, this`startingOrder, this`sent, this`stopped, this`listenerCalls
      ensures Valid() && View() == HostProtocol.SmpcSetUpFinishEnds(old(View()), entryOrder)
      ensures Consistent(old(View())) && IsEnumeration(entryOrder, old(registeredClients.Keys)) ==> Consistent(View())
    {
      ghost var h := View();
      if smpcSetupFinishComplete {
        state := SMPC_Running;
        assert Valid();
        SmpcRunning(entryOrder);
      } else {
        ChangeToErrorState(NotAllReady);
      }
      assert View() == HostProtocol.SmpcSetUpFinishEnds(h, entryOrder);
      if Consistent(h) && IsEnumeration(entryOrder, h.records.Keys) {
        HostInvariant.SmpcSetUpFinishEndsConsistent(h, entryOrder);
      }
    }

    /** `setUpStartingOrder`: the registered connections by descending party id. */
    method SetUpStartingOrder(entryOrder: seq<int>)
      requires Valid()
      modifies this`startingOrder
      ensures Valid() && startingOrder == StartingOrder(entryOrder, PartyIdsOf(records))
    {
      startingOrder := StartingOrder(entryOrder, PartyIds());
    }

    /** `smpcRunning` up to its wait: set up the starting order and ask its head to start. */
    method SmpcRunning(entryOrder: seq<int>)
      requires Valid()
      modifies this`startingOrder, this`sent, this`stopped, this`listenerCalls
      ensures Valid() && View() == HostProtocol.SmpcRunning(old(View()), entryOrder)
    {
      SetUpStartingOrder(entryOrder);
      if startingOrder != [] {
        sent := sent + [(startingOrder[0], RequestAuctionStart)];
      } else {
        ChangeToErrorState(CannotStart);
      }
    }

    /**
     * End of the start wait (`smpcRunning`): `result` is what the evaluation
     * returns, and `valueOrder` the iteration order the winner's lookup walks.
     */
    method SmpcRunningEnds(result: Option<AuctionResult>, valueOrder: seq<int>) returns (winnerClientId: int)
      requires Valid() && state == SMPC_Running && !stopped
      requires ListsKeys(valueOrder, registeredClients.Keys)
      modifies this`state, this`stopped, this`listenerCalls
      ensures Valid() && View() == HostProtocol.SmpcRunningEnds(old(View()), result, winnerClientId)
      ensures Consistent(old(View())) ==> Consistent(View())
      ensures old(auctionStartComplete) && result.Some? ==> ClientIdOf(records, result.value.winnerId, winnerClientId)
    {
      ghost var h := View();
      winnerClientId := -1;
      if auctionStartComplete && result.Some? {
        winnerClientId := FindClientIdByPartyId(result.value.winnerId, valueOrder);
        listenerCalls := listenerCalls + [OnCompletion(result.value, winnerClientId)];
        state := Closure;
        assert Valid();
      } else if !auctionStartComplete {
        ChangeToErrorState(NotStartedByAll);
      } else {
        ChangeToErrorState(EvaluationAborted);
      }
      assert View() == HostProtocol.SmpcRunningEnds(h, result, winnerClientId);
      if Consistent(h) {
        HostInvariant.SmpcRunningEndsConsistent(h, result, winnerClientId);
      }
    }

    /** End of the closure sleep (`closure`): shut down. */
    method ClosureEnds()
      requires Valid() && state == Closure && !stopped
      modifies this`stopped
      ensures Valid() && View() == HostProtocol.ClosureEnds(old(View()))
      ensures Consistent(old(View())) ==> Consistent(View())
    {
      ghost var h := View();
      stopped := true;
      assert View() == HostProtocol.ClosureEnds(h);
      if Consistent(h) {
        HostInvariant.ClosureEndsConsistent(h);
      }
    }
  }
}
