/**
 * The auction host (auction-platform ServerWorker) as a value and its events
 * as functions on that value. The `ServerWorkers` module implements each event
 * as a method of the stateful host and proves it against the function here;
 * this module proves what the events promise and the protocol invariant they
 * keep.
 *
 * Sockets, threads and timers are replaced by events. Each listener callback
 * (`received`, `disconnected`) is an event. The phase thread is a sequence of
 * "...Ends" events: each models the end of one phase's wait (the registration
 * sleep, or a latch `await` that either saw its latch open or timed out), the
 * decision taken after it, and the entry code of the next phase up to its own
 * wait. A latch is a boolean that is true once opened. Messages the host sends
 * are logged as (connection id, message) pairs, connections it closes are
 * logged by id, and calls of its `WorkerListener` are logged in order.
 * Iteration orders of Java hash maps, the shuffle and the IP lookup of a
 * connection are parameters of the events that use them.
 */
module HostProtocol {
  import opened Wrappers
  import opened Decimal
  import opened Auctions
  import opened Protocol
  import opened ConnectionData
  import opened ClientDataRecord

  /** The host's state; `Unstarted` stands for the Java field's initial null. */
  datatype State = Unstarted | Registration | SMPC_SetUp | SMPC_SetUpFinish | SMPC_Running | Closure

  /** The fields of `ServerConfiguration` the state machine uses (durations are timing only). */
  datatype ServerConfiguration = ServerConfiguration(
    auctionId: int, startingPrice: int, auctionType: AuctionType,
    hostIp: string, hostPort: int, frescoPort: int,
    protocolSuite: ProtocolSuite, preprocessing: Preprocessing)

  /** A call of the host's `WorkerListener`. */
  datatype ListenerCall = OnCompletion(result: AuctionResult, clientId: int) | OnError(errorMessage: string)

  const ServerNotStarted := "Server cannot be started."
  const NoClientsRegistered := "No clients registered."
  const NoConnectionData := "At least one client does not respond to RequestConnectionData."
  const NotAllReady := "At least one client is not ready for auction evaluation."
  const PartiesBelowTwo := "Number of parties is below 2."
  const NotStartedByAll := "Auction evaluation is not started by all parties."
  const EvaluationAborted := "Auction evaluation aborted."
  const CannotStart := "Auction evaluation cannot be started."

  /**
   * Everything the host's behaviour depends on: its state, whether it was shut
   * down, the registered records by connection id, the three latches, the
   * network configuration, the remaining starting order (head first), and the
   * logs of sent messages, closed connections and listener calls.
   */
  datatype Host = Host(
    state: State, stopped: bool,
    records: map<int, ClientRecord>,
    setUpComplete: bool, setUpFinishComplete: bool, startComplete: bool,
    network: map<int, Party>, startingOrder: seq<int>,
    sent: seq<(int, Message)>, closed: seq<int>, calls: seq<ListenerCall>)

  // ---------------------------------------------------------------------------
  // Orders, queries and the values the phases compute
  // ---------------------------------------------------------------------------

  /** `order` lists every element of `keys` exactly once: an iteration order of a Java map or set. */
  ghost predicate IsEnumeration(order: seq<int>, keys: set<int>) {
    multiset(order) == multiset(keys)
  }

  /** Every entry of `order` is one of `keys`: the order walks registered connections only. */
  predicate WithinKeys(order: seq<int>, keys: set<int>) {
    forall i :: 0 <= i < |order| ==> order[i] in keys
  }

  /** `order` lists only and all of `keys`, possibly with repeats. */
  predicate ListsKeys(order: seq<int>, keys: set<int>) {
    WithinKeys(order, keys) && forall c :: c in keys ==> c in order
  }

  predicate Distinct(s: seq<int>) {
    forall i, j :: 0 <= i < j < |s| ==> s[i] != s[j]
  }

  /** `clientAlreadyRegistered`: some registered record carries this client id. */
  predicate ClientIdTaken(records: map<int, ClientRecord>, clientId: int) {
    exists c :: c in records && records[c].clientId == clientId
  }

  /** `allConnectionDataReceived`: every registered member has reported a port. */
  predicate AllPortsAvailable(records: map<int, ClientRecord>) {
    forall c :: c in records ==> PortAvailable(records[c])
  }

  /** `allClientsReady`: every registered member has reported ready. */
  predicate AllReady(records: map<int, ClientRecord>) {
    forall c :: c in records ==> records[c].isReadyForAuctionEvaluation
  }

  /**
   * What `findClientIdByPartyId` may return: the client id of some record holding
   * the party id, or -1 when no record holds it.
   */
  ghost predicate ClientIdOf(records: map<int, ClientRecord>, partyId: int, clientId: int) {
    if exists c :: c in records && records[c].frescoPartyId == partyId then
      exists c :: c in records && records[c].frescoPartyId == partyId && records[c].clientId == clientId
    else clientId == -1
  }

  /** `getClientIpAddress`: the remote address of an open connection, "" for any other id. */
  function IpOf(ipOf: map<int, string>, connectionId: int): string {
    if connectionId in ipOf then ipOf[connectionId] else ""
  }

  /** The host's own party: id 1, at the configured address and evaluation port. */
  function HostParty(config: ServerConfiguration): (p: Party)
    ensures p.partyId == 1
  {
    Party(1, config.hostIp, config.frescoPort)
  }

  /** The connections of `order` whose address resolves, in order: those that get a party id. */
  function Resolved(order: seq<int>, ipOf: map<int, string>): (res: seq<int>)
    ensures |res| <= |order|
    ensures forall c :: c in res <==> c in order && IpOf(ipOf, c) != ""
  {
    if order == [] then []
    else
      var res := Resolved(order[..|order| - 1], ipOf);
      var c := order[|order| - 1];
      assert forall x :: x in order <==> x in order[..|order| - 1] || x == c;
      if IpOf(ipOf, c) != "" then res + [c] else res
  }

  /** The party id `setUpParties` gives each resolved connection: the j-th one gets j + 2. */
  function AssignedIds(res: seq<int>): (ids: map<int, int>)
    ensures ids.Keys == set c | c in res
  {
    if res == [] then map[] else AssignedIds(res[..|res| - 1])[res[|res| - 1] := |res| + 1]
  }

  /** The records with the party ids of `ids` stored in them; the other records are unchanged. */
  function WithPartyIds(records: map<int, ClientRecord>, ids: map<int, int>): (r: map<int, ClientRecord>)
    ensures r.Keys == records.Keys
  {
    map c | c in records :: if c in ids then records[c].(frescoPartyId := ids[c]) else records[c]
  }

  /** The network configuration `setUpParties` builds: the host as party 1, then the resolved connections. */
  function PartyTable(host: Party, res: seq<int>, ipOf: map<int, string>, ports: map<int, int>): map<int, Party>
    requires forall c :: c in res ==> c in ports
  {
    if res == [] then map[host.partyId := host]
    else
      var c := res[|res| - 1];
      PartyTable(host, res[..|res| - 1], ipOf, ports)[|res| + 1 := Party(|res| + 1, IpOf(ipOf, c), ports[c])]
  }

  /** The port each registered connection has reported. */
  function PortsOf(records: map<int, ClientRecord>): (ports: map<int, int>)
    ensures ports.Keys == records.Keys
  {
    map c | c in records :: records[c].frescoPort
  }

  /** The party id each registered connection holds. */
  function PartyIdsOf(records: map<int, ClientRecord>): (ids: map<int, int>)
    ensures ids.Keys == records.Keys
  {
    map c | c in records :: records[c].frescoPartyId
  }

  /** One copy of a message to each connection of `order`. */
  function Broadcast(order: seq<int>, m: Message): (out: seq<(int, Message)>)
    ensures |out| == |order|
    ensures forall i :: 0 <= i < |order| ==> out[i] == (order[i], m)
  {
    if order == [] then [] else Broadcast(order[..|order| - 1], m) + [(order[|order| - 1], m)]
  }

  /** The `AuctionConfiguration` messages `sendConfig` sends: each carries its receiver's party id. */
  function ConfigMessages(order: seq<int>, partyIds: map<int, int>, config: ServerConfiguration,
                          mapping: seq<string>): (out: seq<(int, Message)>)
    requires forall i :: 0 <= i < |order| ==> order[i] in partyIds
    ensures |out| == |order|
    ensures forall i :: 0 <= i < |order| ==>
              out[i] == (order[i], AuctionConfiguration(partyIds[order[i]], config.auctionType,
                                                        config.protocolSuite, config.preprocessing, mapping))
  {
    if order == [] then []
    else
      var c := order[|order| - 1];
      ConfigMessages(order[..|order| - 1], partyIds, config, mapping)
        + [(c, AuctionConfiguration(partyIds[c], config.auctionType, config.protocolSuite, config.preprocessing, mapping))]
  }

  /** The connections a `RequestAuctionStart` was sent to, in sending order. */
  function StartRequests(sent: seq<(int, Message)>): seq<int> {
    if sent == [] then []
    else
      var last := sent[|sent| - 1];
      StartRequests(sent[..|sent| - 1]) + (if last.1 == RequestAuctionStart then [last.0] else [])
  }

  /** The party id of a connection; -1, the "unassigned" sentinel, for an unknown one. */
  function PartyIdOf(partyIds: map<int, int>, c: int): int {
    if c in partyIds then partyIds[c] else -1
  }

  /** Party ids do not increase along the list. */
  ghost predicate DescendingPartyIds(s: seq<int>, partyIds: map<int, int>) {
    forall i, j :: 0 <= i < j < |s| ==> PartyIdOf(partyIds, s[i]) >= PartyIdOf(partyIds, s[j])
  }

  /** Inserting `c` into a list sorted by descending party id, after every entry whose id is not lower. */
  function InsertByPartyId(c: int, sorted: seq<int>, partyIds: map<int, int>): (r: seq<int>)
    ensures multiset(r) == multiset(sorted) + multiset{c}
  {
    if sorted == [] then [c]
    else if PartyIdOf(partyIds, sorted[0]) >= PartyIdOf(partyIds, c) then
      assert sorted == [sorted[0]] + sorted[1..];
      [sorted[0]] + InsertByPartyId(c, sorted[1..], partyIds)
    else [c] + sorted
  }

  /**
   * `setUpStartingOrder`: the entries, in map iteration order, sorted by
   * descending party id; entries with equal ids keep their iteration order.
   */
  function StartingOrder(entries: seq<int>, partyIds: map<int, int>): (r: seq<int>)
    ensures multiset(r) == multiset(entries)
  {
    if entries == [] then []
    else
      assert entries == entries[..|entries| - 1] + [entries[|entries| - 1]];
      InsertByPartyId(entries[|entries| - 1], StartingOrder(entries[..|entries| - 1], partyIds), partyIds)
  }

  // ---------------------------------------------------------------------------
  // Events
  // ---------------------------------------------------------------------------

  /** The host as constructed: no state yet, nothing registered, every latch closed. */
  function Initial(): (h: Host)
    ensures h.state == Unstarted && !h.stopped && h.records == map[]
    ensures !h.setUpComplete && !h.setUpFinishComplete && !h.startComplete
  {
    Host(Unstarted, false, map[], false, false, false, map[], [], [], [], [])
  }

  /** `changeToErrorState`: report the message to the listener and shut down; the state is kept. */
  function Abort(h: Host, errorMessage: string): Host {
    h.(stopped := true, calls := h.calls + [OnError(errorMessage)])
  }

  /** `run`: enter Registration once the message server runs, otherwise abort. */
  function Run(h: Host, serverStarted: bool): (r: Host)
    requires h.state == Unstarted && !h.stopped
    ensures r.state in {Unstarted, Registration}
    ensures r.stopped <==> !serverStarted
  {
    if serverStarted then h.(state := Registration) else Abort(h, ServerNotStarted)
  }

  /**
   * `received`: a message from connection `conn`. Each state acts on one kind
   * of message only and ignores the rest.
   */
  function Received(h: Host, conn: int, msg: Message): (r: Host)
    requires h.state != Unstarted && !h.stopped
    ensures SamePhase(h, r, conn)
    ensures !Handles(h.state, msg) ==> r == h
  {
    match h.state
    case Registration => if msg.Register? then ReceivedRegister(h, conn, msg.clientId) else h
    case SMPC_SetUp => if msg.ResponseConnectionData? then ReceivedConnectionData(h, conn, msg.frescoPort) else h
    case SMPC_SetUpFinish => if msg.AuctionReady? then ReceivedAuctionReady(h, conn) else h
    case SMPC_Running => if msg.ResponseAuctionStart? then ReceivedAuctionStart(h, conn) else h
    case _ => h
  }

  /** The one kind of message each state acts on. */
  predicate Handles(s: State, msg: Message) {
    match s
    case Registration => msg.Register?
    case SMPC_SetUp => msg.ResponseConnectionData?
    case SMPC_SetUpFinish => msg.AuctionReady?
    case SMPC_Running => msg.ResponseAuctionStart?
    case _ => false
  }

  /**
   * What no message changes: the state, the shutdown, the listener calls and the
   * network; at most the sender's connection gains a record.
   */
  predicate SamePhase(h: Host, r: Host, conn: int) {
    r.state == h.state && r.stopped == h.stopped && r.calls == h.calls && r.network == h.network &&
    r.records.Keys <= h.records.Keys + {conn}
  }

  /** A `Register` in Registration: a client id not yet registered adds a fresh record, a taken one closes the connection. */
  function ReceivedRegister(h: Host, conn: int, clientId: int): (r: Host)
    ensures SamePhase(h, r, conn)
    ensures r.records == if ClientIdTaken(h.records, clientId) then h.records else h.records[conn := FreshRecord(clientId)]
    ensures r.closed == if ClientIdTaken(h.records, clientId) then h.closed + [conn] else h.closed
    ensures r.(records := h.records, closed := h.closed) == h
  {
    if ClientIdTaken(h.records, clientId) then h.(closed := h.closed + [conn])
    else h.(records := h.records[conn := FreshRecord(clientId)])
  }

  /** A `ResponseConnectionData` in SMPC_SetUp: the sender's port is stored and the latch opens once every port is in. */
  function ReceivedConnectionData(h: Host, conn: int, frescoPort: int): (r: Host)
    ensures SamePhase(h, r, conn)
    ensures conn !in h.records ==> r == h.(closed := h.closed + [conn])
    ensures conn in h.records ==> conn in r.records && r.records[conn].frescoPort == frescoPort && r.closed == h.closed
    ensures r.setUpComplete <==> h.setUpComplete || (conn in h.records && AllPortsAvailable(r.records))
  {
    if conn !in h.records then h.(closed := h.closed + [conn])
    else
      var records := h.records[conn := h.records[conn].(frescoPort := frescoPort)];
      h.(records := records, setUpComplete := h.setUpComplete || AllPortsAvailable(records))
  }

  /** An `AuctionReady` in SMPC_SetUpFinish: the sender is marked ready and the latch opens once every member is. */
  function ReceivedAuctionReady(h: Host, conn: int): (r: Host)
    ensures SamePhase(h, r, conn)
    ensures conn !in h.records ==> r == h.(closed := h.closed + [conn])
    ensures conn in h.records ==> conn in r.records && r.records[conn].isReadyForAuctionEvaluation && r.closed == h.closed
    ensures r.setUpFinishComplete <==> h.setUpFinishComplete || (conn in h.records && AllReady(r.records))
  {
    if conn !in h.records then h.(closed := h.closed + [conn])
    else
      var records := h.records[conn := h.records[conn].(isReadyForAuctionEvaluation := true)];
      h.(records := records, setUpFinishComplete := h.setUpFinishComplete || AllReady(records))
  }

  /**
   * A `ResponseAuctionStart` in SMPC_Running: only from the head of the starting
   * order; the head is popped and the next asked to start, or the latch opens.
   */
  function ReceivedAuctionStart(h: Host, conn: int): (r: Host)
    ensures SamePhase(h, r, conn)
    ensures h.startingOrder == [] || h.startingOrder[0] != conn ==> r == h
    ensures h.startingOrder != [] && h.startingOrder[0] == conn ==>
              r.startingOrder == h.startingOrder[1..] && (r.startComplete <==> h.startComplete || r.startingOrder == [])
  {
    if h.startingOrder == [] || h.startingOrder[0] != conn then h
    else
      var rest := h.startingOrder[1..];
      if rest == [] then h.(startingOrder := rest, startComplete := true)
      else h.(startingOrder := rest, sent := h.sent + [(rest[0], RequestAuctionStart)])
  }

  /**
   * `disconnected`: during Registration the connection's record is removed; the
   * second component reports the null dereference of the Java code when there
   * was no record to remove.
   */
  function Disconnected(h: Host, conn: int): (r: (Host, bool))
    requires !h.stopped
    ensures r.0.records == if h.state == Registration then h.records - {conn} else h.records
    ensures r.0.(records := h.records) == h
    ensures r.1 <==> h.state == Registration && conn !in h.records
  {
    if h.state != Registration then (h, false)
    else if conn in h.records then (h.(records := h.records - {conn}), false)
    else (h, true)
  }

  /**
   * End of the registration sleep (`registration`): with at least one member,
   * enter SMPC_SetUp and send each member a `RequestConnectionData`
   * (`requestSMPCPorts`); with none, abort.
   */
  function RegistrationEnds(h: Host, keyOrder: seq<int>): (r: Host)
    requires h.state == Registration && !h.stopped
    ensures h.records == map[] ==> r == Abort(h, NoClientsRegistered)
    ensures h.records != map[] ==> r == h.(state := SMPC_SetUp, sent := h.sent + Broadcast(keyOrder, RequestConnectionData))
  {
    if h.records == map[] then Abort(h, NoClientsRegistered)
    else h.(state := SMPC_SetUp, sent := h.sent + Broadcast(keyOrder, RequestConnectionData))
  }

  /**
   * End of the port wait (`smpcSetUp`): unless the latch opened, abort. Otherwise
   * enter SMPC_SetUpFinish, assign party ids (`setUpParties`), and, with at least
   * two parties, send each member its `AuctionConfiguration` (`sendConfig`).
   */
  function SmpcSetUpEnds(h: Host, config: ServerConfiguration, shuffled: seq<int>, ipOf: map<int, string>,
                         keyOrder: seq<int>): (r: Host)
    requires h.state == SMPC_SetUp && !h.stopped
    requires WithinKeys(shuffled, h.records.Keys) && WithinKeys(keyOrder, h.records.Keys)
    ensures !h.setUpComplete ==> r == Abort(h, NoConnectionData)
    ensures h.setUpComplete ==> r.state == SMPC_SetUpFinish && (r.stopped <==> |r.network| <= 1)
  {
    if !h.setUpComplete then Abort(h, NoConnectionData)
    else SmpcSetUpFinish(h, config, shuffled, ipOf, keyOrder)
  }

  /**
   * Entering SMPC_SetUpFinish (`smpcSetUpFinish` up to its wait): assign party ids
   * and, with at least two parties, send each member its `AuctionConfiguration`;
   * otherwise abort.
   */
  function SmpcSetUpFinish(h: Host, config: ServerConfiguration, shuffled: seq<int>, ipOf: map<int, string>,
                           keyOrder: seq<int>): (r: Host)
    requires WithinKeys(shuffled, h.records.Keys) && WithinKeys(keyOrder, h.records.Keys)
    ensures r.state == SMPC_SetUpFinish && (r.stopped <==> h.stopped || |r.network| <= 1)
  {
    DistributeConfig(SetUpParties(h, config, shuffled, ipOf), config, keyOrder)
  }

  /**
   * The rest of `smpcSetUpFinish` once the parties are set up: with at least two
   * parties, each member gets its `AuctionConfiguration` (`sendConfig`); otherwise abort.
   */
  function DistributeConfig(h: Host, config: ServerConfiguration, keyOrder: seq<int>): (r: Host)
    requires forall id :: 1 <= id <= |h.network| ==> id in h.network
    requires WithinKeys(keyOrder, h.records.Keys)
    ensures r.state == h.state && r.records == h.records && r.network == h.network
    ensures r.stopped <==> h.stopped || |h.network| <= 1
    ensures |h.network| <= 1 ==> r == Abort(h, PartiesBelowTwo)
  {
    if |h.network| > 1 then
      h.(sent := h.sent + ConfigMessages(keyOrder, PartyIdsOf(h.records), config, ConnectionTable(h.network, |h.network|)))
    else Abort(h, PartiesBelowTwo)
  }

  /**
   * `setUpParties` on entering SMPC_SetUpFinish: the host is party 1, and the
   * connections whose address resolves get 2, 3, ... in shuffled order.
   */
  function SetUpParties(h: Host, config: ServerConfiguration, shuffled: seq<int>, ipOf: map<int, string>): (r: Host)
    requires WithinKeys(shuffled, h.records.Keys)
    ensures r.records.Keys == h.records.Keys
    ensures forall id :: 1 <= id <= |r.network| ==> id in r.network
    ensures forall id :: id in r.network ==> r.network[id].partyId == id
  {
    var res := Resolved(shuffled, ipOf);
    PartyTableShape(HostParty(config), res, ipOf, PortsOf(h.records));
    h.(state := SMPC_SetUpFinish,
       records := WithPartyIds(h.records, AssignedIds(res)),
       network := PartyTable(HostParty(config), res, ipOf, PortsOf(h.records)))
  }

  /**
   * End of the ready wait (`smpcSetUpFinish`): unless the latch opened, abort.
   * Otherwise enter SMPC_Running, set up the starting order and ask its head
   * to start (`smpcRunning` up to its wait).
   */
  function SmpcSetUpFinishEnds(h: Host, entryOrder: seq<int>): (r: Host)
    requires h.state == SMPC_SetUpFinish && !h.stopped
    ensures !h.setUpFinishComplete ==> r == Abort(h, NotAllReady)
    ensures h.setUpFinishComplete ==> r.state == SMPC_Running && r.records == h.records
  {
    if !h.setUpFinishComplete then Abort(h, NotAllReady)
    else SmpcRunning(h.(state := SMPC_Running), entryOrder)
  }

  /**
   * Entering SMPC_Running (`smpcRunning` up to its wait): set up the starting
   * order (`setUpStartingOrder`) and ask its head to start; with nobody to
   * start, abort.
   */
  function SmpcRunning(h: Host, entryOrder: seq<int>): (r: Host)
    ensures r.state == h.state && r.records == h.records
    ensures r.startingOrder == StartingOrder(entryOrder, PartyIdsOf(h.records))
    ensures r.stopped <==> h.stopped || r.startingOrder == []
    ensures r.startingOrder == [] ==> r == Abort(h.(startingOrder := []), CannotStart)
    ensures r.startingOrder != [] ==> r.sent == h.sent + [(r.startingOrder[0], RequestAuctionStart)] && r.calls == h.calls
  {
    var order := StartingOrder(entryOrder, PartyIdsOf(h.records));
    if order != [] then h.(startingOrder := order, sent := h.sent + [(order[0], RequestAuctionStart)])
    else Abort(h.(startingOrder := order), CannotStart)
  }

  /**
   * End of the start wait (`smpcRunning`): with every member started and a result
   * from the evaluation, report it with the winner's client id and enter Closure;
   * otherwise abort with the reason.
   */
  function SmpcRunningEnds(h: Host, result: Option<AuctionResult>, winnerClientId: int): (r: Host)
    requires h.state == SMPC_Running && !h.stopped
    ensures r.calls == h.calls + [
              if h.startComplete && result.Some? then OnCompletion(result.value, winnerClientId)
              else if !h.startComplete then OnError(NotStartedByAll)
              else OnError(EvaluationAborted)]
    ensures r.state == Closure <==> h.startComplete && result.Some?
    ensures r.stopped <==> r.state != Closure
  {
    if h.startComplete && result.Some? then
      h.(state := Closure, calls := h.calls + [OnCompletion(result.value, winnerClientId)])
    else if !h.startComplete then Abort(h, NotStartedByAll)
    else Abort(h, EvaluationAborted)
  }

  /** End of the closure sleep (`closure`): shut down. */
  function ClosureEnds(h: Host): (r: Host)
    requires h.state == Closure && !h.stopped
    ensures r.stopped && r.(stopped := false) == h
  {
    h.(stopped := true)
  }

  // ---------------------------------------------------------------------------
  // Properties of the values the phases compute
  // ---------------------------------------------------------------------------

  /** An enumeration of a non-empty set is non-empty, and its first element is in the set. */
  lemma EnumerationWitness(order: seq<int>, keys: set<int>)
    requires IsEnumeration(order, keys) && keys != {}
    ensures order != [] && order[0] in keys
  {
    assert |multiset(keys)| == |keys| > 0;
    assert |order| == |multiset(order)|;
    assert order[0] in multiset(order);
  }

  /** Storing one more party id updates that one record. */
  lemma WithPartyIdsPut(records: map<int, ClientRecord>, ids: map<int, int>, c: int, id: int)
    requires c in records
    ensures WithPartyIds(records, ids[c := id])
         == WithPartyIds(records, ids)[c := WithPartyIds(records, ids)[c].(frescoPartyId := id)]
  {
  }

  /** A sequence in which nothing occurs twice has no repeated element. */
  lemma {:induction false} DistinctOfCounts(s: seq<int>)
    requires forall x :: multiset(s)[x] <= 1
    ensures Distinct(s)
  {
    if s != [] {
      var s', y := s[..|s| - 1], s[|s| - 1];
      assert s == s' + [y];
      assert forall x :: multiset(s')[x] <= multiset(s)[x];
      DistinctOfCounts(s');
      assert multiset(s')[y] == 0;
    }
  }

  /** An enumeration of a set lists each element once and nothing else. */
  lemma EnumerationDistinct(order: seq<int>, keys: set<int>)
    requires IsEnumeration(order, keys)
    ensures Distinct(order)
    ensures forall c :: c in order <==> c in keys
    ensures forall i :: 0 <= i < |order| ==> order[i] in keys
  {
    forall x ensures multiset(order)[x] <= 1 {
      assert multiset(keys)[x] == if x in keys then 1 else 0;
    }
    DistinctOfCounts(order);
    forall c ensures c in order <==> c in keys {
      assert c in order <==> c in multiset(order);
    }
  }

  /** Only the resolved connections of a repetition-free order get ids, so they are repetition-free too. */
  lemma {:induction false} ResolvedDistinct(order: seq<int>, ipOf: map<int, string>)
    requires Distinct(order)
    ensures Distinct(Resolved(order, ipOf))
  {
    if order != [] {
      var prefix := order[..|order| - 1];
      ResolvedDistinct(prefix, ipOf);
      assert order[|order| - 1] !in prefix;
    }
  }

  /** Each resolved connection gets its position plus 2, so different connections get different ids. */
  lemma {:induction false} AssignedIdsAt(res: seq<int>)
    requires Distinct(res)
    ensures forall j :: 0 <= j < |res| ==> AssignedIds(res)[res[j]] == j + 2
  {
    if res != [] {
      var prefix := res[..|res| - 1];
      AssignedIdsAt(prefix);
      forall j | 0 <= j < |res| ensures AssignedIds(res)[res[j]] == j + 2 {
        if j < |res| - 1 {
          assert res[j] == prefix[j];
        }
      }
    }
  }

  /** A set holding exactly 1..n has n elements. */
  lemma {:induction false} RangeCardinality(s: set<int>, n: nat)
    requires forall x :: x in s <==> 1 <= x <= n
    ensures |s| == n
  {
    if n > 0 {
      RangeCardinality(s - {n}, n - 1);
    } else {
      assert forall x :: x !in s;
    }
  }

  /** One more resolved connection adds one party to the table and one id to the assignment. */
  lemma PartyTableSnoc(host: Party, res: seq<int>, c: int, ipOf: map<int, string>, ports: map<int, int>)
    requires forall x :: x in res ==> x in ports
    requires c in ports
    ensures PartyTable(host, res + [c], ipOf, ports)
         == PartyTable(host, res, ipOf, ports)[|res| + 2 := Party(|res| + 2, IpOf(ipOf, c), ports[c])]
    ensures AssignedIds(res + [c]) == AssignedIds(res)[c := |res| + 2]
  {
    assert (res + [c])[..|res|] == res;
  }

  /** One step of the walk over the shuffled connections: the next connection resolves or it does not. */
  lemma ResolvedStep(order: seq<int>, i: nat, ipOf: map<int, string>)
    requires i < |order|
    ensures IpOf(ipOf, order[i]) != "" ==> Resolved(order[..i + 1], ipOf) == Resolved(order[..i], ipOf) + [order[i]]
    ensures IpOf(ipOf, order[i]) == "" ==> Resolved(order[..i + 1], ipOf) == Resolved(order[..i], ipOf)
  {
    assert order[..i + 1][..i] == order[..i];
  }

  /**
   * One resolved connection in the walk of `setUpParties`: the next party id
   * goes to it, its party joins the table and its record stores the id.
   */
  lemma AssignStep(host: Party, records: map<int, ClientRecord>, order: seq<int>, i: nat, ipOf: map<int, string>,
                   ports: map<int, int>, res: seq<int>, ids: map<int, int>)
    requires i < |order| && res == Resolved(order[..i], ipOf) && ids == AssignedIds(res)
    requires forall x :: x in res ==> x in ports
    requires order[i] in ports && order[i] in records && IpOf(ipOf, order[i]) != ""
    ensures var c := order[i];
            && res + [c] == Resolved(order[..i + 1], ipOf)
            && ids[c := |res| + 2] == AssignedIds(res + [c])
            && PartyTable(host, res + [c], ipOf, ports)
               == PartyTable(host, res, ipOf, ports)[|res| + 2 := Party(|res| + 2, IpOf(ipOf, c), ports[c])]
            && WithPartyIds(records, ids[c := |res| + 2])
               == WithPartyIds(records, ids)[c := WithPartyIds(records, ids)[c].(frescoPartyId := |res| + 2)]
  {
    ResolvedStep(order, i, ipOf);
    PartyTableSnoc(host, res, order[i], ipOf, ports);
    WithPartyIdsPut(records, ids, order[i], |res| + 2);
  }

  /** The party table holds exactly the parties 1..|res|+1. */
  lemma {:induction false} PartyTableKeys(host: Party, res: seq<int>, ipOf: map<int, string>, ports: map<int, int>)
    requires host.partyId == 1
    requires forall c :: c in res ==> c in ports
    ensures forall id :: id in PartyTable(host, res, ipOf, ports) <==> 1 <= id <= |res| + 1
    ensures |PartyTable(host, res, ipOf, ports)| == |res| + 1
  {
    var t := PartyTable(host, res, ipOf, ports);
    if res != [] {
      PartyTableKeys(host, res[..|res| - 1], ipOf, ports);
    }
    RangeCardinality(t.Keys, |res| + 1);
  }

  /** In the party table, the host is party 1 and the j-th resolved connection, at its address and port, is party j + 2. */
  lemma {:induction false} PartyTableEntries(host: Party, res: seq<int>, ipOf: map<int, string>, ports: map<int, int>)
    requires host.partyId == 1
    requires forall c :: c in res ==> c in ports
    ensures 1 in PartyTable(host, res, ipOf, ports) && PartyTable(host, res, ipOf, ports)[1] == host
    ensures forall id :: 1 <= id <= |res| + 1 ==> id in PartyTable(host, res, ipOf, ports)
    ensures forall j :: 0 <= j < |res| ==>
              PartyTable(host, res, ipOf, ports)[j + 2] == Party(j + 2, IpOf(ipOf, res[j]), ports[res[j]])
  {
    if res != [] {
      var prefix := res[..|res| - 1];
      PartyTableEntries(host, prefix, ipOf, ports);
      PartyTableKeys(host, res, ipOf, ports);
      var t, t' := PartyTable(host, res, ipOf, ports), PartyTable(host, prefix, ipOf, ports);
      forall j | 0 <= j < |res|
        ensures PartyTable(host, res, ipOf, ports)[j + 2] == Party(j + 2, IpOf(ipOf, res[j]), ports[res[j]])
      {
        if j < |res| - 1 {
          assert res[j] == prefix[j];
          assert t[j + 2] == t'[j + 2];
        }
      }
    }
  }

  /** The party table is what the connection table needs: parties 1..n, each under its own id. */
  lemma PartyTableShape(host: Party, res: seq<int>, ipOf: map<int, string>, ports: map<int, int>)
    requires host.partyId == 1
    requires forall c :: c in res ==> c in ports
    ensures forall id :: 1 <= id <= |PartyTable(host, res, ipOf, ports)| ==> id in PartyTable(host, res, ipOf, ports)
    ensures forall id :: id in PartyTable(host, res, ipOf, ports) ==> PartyTable(host, res, ipOf, ports)[id].partyId == id
  {
    PartyTableKeys(host, res, ipOf, ports);
    PartyTableEntries(host, res, ipOf, ports);
    var t := PartyTable(host, res, ipOf, ports);
    forall id | id in t ensures t[id].partyId == id {
      if id >= 2 {
        assert t[(id - 2) + 2].partyId == id;
      }
    }
  }

  /** Inserting an entry whose party id is at most `bound` keeps every party id at most `bound`. */
  lemma InsertBounded(c: int, sorted: seq<int>, partyIds: map<int, int>, bound: int)
    requires forall x :: x in sorted ==> PartyIdOf(partyIds, x) <= bound
    requires PartyIdOf(partyIds, c) <= bound
    ensures forall x :: x in InsertByPartyId(c, sorted, partyIds) ==> PartyIdOf(partyIds, x) <= bound
  {
    var r := InsertByPartyId(c, sorted, partyIds);
    forall x | x in r ensures PartyIdOf(partyIds, x) <= bound {
      assert x in multiset(r);
      if x != c {
        assert x in multiset(sorted);
      }
    }
  }

  /** In a list sorted by descending party id no later entry has a higher id than the first. */
  lemma HeadIsHighest(sorted: seq<int>, partyIds: map<int, int>)
    requires sorted != [] && DescendingPartyIds(sorted, partyIds)
    ensures forall x :: x in sorted[1..] ==> PartyIdOf(partyIds, x) <= PartyIdOf(partyIds, sorted[0])
  {
    forall x | x in sorted[1..] ensures PartyIdOf(partyIds, x) <= PartyIdOf(partyIds, sorted[0]) {
      var k :| 0 <= k < |sorted[1..]| && sorted[1..][k] == x;
      assert sorted[k + 1] == x;
    }
  }

  /** A sorted list stays sorted under a new first entry whose id is not lower than any of its ids. */
  lemma ConsDescending(h: int, rest: seq<int>, partyIds: map<int, int>)
    requires DescendingPartyIds(rest, partyIds)
    requires forall x :: x in rest ==> PartyIdOf(partyIds, x) <= PartyIdOf(partyIds, h)
    ensures DescendingPartyIds([h] + rest, partyIds)
  {
    var r := [h] + rest;
    forall i, j | 0 <= i < j < |r| ensures PartyIdOf(partyIds, r[i]) >= PartyIdOf(partyIds, r[j]) {
      assert r[j] == rest[j - 1];
      if i > 0 {
        assert r[i] == rest[i - 1];
      }
    }
  }

  /** Inserting into a list sorted by descending party id keeps it sorted. */
  lemma {:induction false} InsertKeepsDescending(c: int, sorted: seq<int>, partyIds: map<int, int>)
    requires DescendingPartyIds(sorted, partyIds)
    ensures DescendingPartyIds(InsertByPartyId(c, sorted, partyIds), partyIds)
  {
    if sorted != [] && PartyIdOf(partyIds, sorted[0]) >= PartyIdOf(partyIds, c) {
      var tail := sorted[1..];
      InsertKeepsDescending(c, tail, partyIds);
      HeadIsHighest(sorted, partyIds);
      InsertBounded(c, tail, partyIds, PartyIdOf(partyIds, sorted[0]));
      ConsDescending(sorted[0], InsertByPartyId(c, tail, partyIds), partyIds);
    }
  }

  /** The starting order lists party ids in descending order. */
  lemma {:induction false} StartingOrderDescending(entries: seq<int>, partyIds: map<int, int>)
    ensures DescendingPartyIds(StartingOrder(entries, partyIds), partyIds)
  {
    if entries != [] {
      StartingOrderDescending(entries[..|entries| - 1], partyIds);
      InsertKeepsDescending(entries[|entries| - 1], StartingOrder(entries[..|entries| - 1], partyIds), partyIds);
    }
  }

  /** The start requests of a log grow only by the start requests appended to it. */
  lemma {:induction false} StartRequestsAppend(sent: seq<(int, Message)>, more: seq<(int, Message)>)
    ensures StartRequests(sent + more) == StartRequests(sent) + StartRequests(more)
    decreases |more|
  {
    if more == [] {
      assert sent + more == sent;
    } else {
      var m' := more[..|more| - 1];
      assert (sent + more)[..|sent + more| - 1] == sent + m';
      StartRequestsAppend(sent, m');
    }
  }

  /** Messages other than `RequestAuctionStart` add no start request. */
  lemma {:induction false} NoStartRequests(msgs: seq<(int, Message)>)
    requires forall i :: 0 <= i < |msgs| ==> msgs[i].1 != RequestAuctionStart
    ensures StartRequests(msgs) == []
  {
    if msgs != [] {
      NoStartRequests(msgs[..|msgs| - 1]);
    }
  }

  // ---------------------------------------------------------------------------
  // The protocol invariant
  // ---------------------------------------------------------------------------

  /** No two registered members share a client id. */
  ghost predicate DistinctClientIds(records: map<int, ClientRecord>) {
    forall c, d :: c in records && d in records && c != d ==> records[c].clientId != records[d].clientId
  }

  /**
   * The listener hears of the auction once: with the result exactly when the
   * host reached Closure, or with an error exactly when it shut down early.
   */
  ghost predicate ReportedOnce(h: Host) {
    && |h.calls| <= 1
    && (h.stopped ==> |h.calls| == 1)
    && (|h.calls| == 1 && h.calls[0].OnError? ==> h.stopped)
    && (h.state == Closure <==> |h.calls| == 1 && h.calls[0].OnCompletion?)
  }

  /**
   * Each phase starts from what the earlier phases left: nothing registers before
   * Registration, members keep their initial values until the phase that sets
   * them, and a latch is closed before its phase.
   */
  ghost predicate PhaseOrder(h: Host) {
    && (h.state == Unstarted ==> h.records == map[])
    && (h.state !in {Unstarted, Registration} ==> h.records != map[])
    && (h.state in {Unstarted, Registration} ==>
          !h.setUpComplete && forall c :: c in h.records ==> h.records[c] == FreshRecord(h.records[c].clientId))
    && (h.state in {Unstarted, Registration, SMPC_SetUp} ==>
          && !h.setUpFinishComplete && h.network == map[]
          && forall c :: c in h.records ==> !h.records[c].isReadyForAuctionEvaluation && h.records[c].frescoPartyId == -1)
  }

  /** No lost wake-up: in its phase, a barrier that holds has opened its latch. */
  ghost predicate BarriersOpen(h: Host) {
    && (h.state == SMPC_SetUp && AllPortsAvailable(h.records) ==> h.setUpComplete)
    && (h.state == SMPC_SetUpFinish && AllReady(h.records) ==> h.setUpFinishComplete)
  }

  /**
   * From SMPC_SetUpFinish on, the network holds parties 1..n under their own
   * ids; every member holds -1 or an id in 2..n; no two members hold the same
   * id; every id in 2..n is held by a member; and the network lists each
   * member at the port the member reported.
   */
  ghost predicate PartiesAssigned(records: map<int, ClientRecord>, network: map<int, Party>) {
    && (forall id :: id in network <==> 1 <= id <= |network|)
    && (forall id :: id in network ==> network[id].partyId == id)
    && (forall c :: c in records ==> records[c].frescoPartyId == -1 || 2 <= records[c].frescoPartyId <= |network|)
    && (forall c, d :: c in records && d in records && c != d && records[c].frescoPartyId != -1 ==>
          records[c].frescoPartyId != records[d].frescoPartyId)
    && (forall id :: id in network && id != 1 ==> exists c :: c in records && records[c].frescoPartyId == id)
    && (forall c :: c in records && records[c].frescoPartyId != -1 ==>
          network[records[c].frescoPartyId].port == records[c].frescoPort)
  }

  function Tail(s: seq<int>): seq<int> {
    if s == [] then [] else s[1..]
  }

  /**
   * The start handshake: before SMPC_Running no start request was sent. From then
   * on the members asked to start, followed by the rest of the starting order
   * after its head, list every member once, in descending party id; the last
   * one asked is the current head; and the start latch is open exactly when the
   * order is used up, as it is in Closure.
   */
  ghost predicate StartHandshake(h: Host) {
    if h.state in {SMPC_Running, Closure} then
      var asked := StartRequests(h.sent);
      && IsEnumeration(asked + Tail(h.startingOrder), h.records.Keys)
      && DescendingPartyIds(asked + Tail(h.startingOrder), PartyIdsOf(h.records))
      && (h.startingOrder != [] ==> asked != [] && asked[|asked| - 1] == h.startingOrder[0])
      && (h.startComplete <==> h.startingOrder == [])
      && (h.state == Closure ==> h.startComplete)
    else
      StartRequests(h.sent) == [] && h.startingOrder == [] && !h.startComplete
  }

  /** The invariant every reachable host satisfies. */
  ghost predicate Consistent(h: Host) {
    && DistinctClientIds(h.records)
    && ReportedOnce(h)
    && PhaseOrder(h)
    && BarriersOpen(h)
    && (h.state in {SMPC_SetUpFinish, SMPC_Running, Closure} ==> PartiesAssigned(h.records, h.network))
    && StartHandshake(h)
  }
}
