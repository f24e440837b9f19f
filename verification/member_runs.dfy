/**
 * Whole runs of an auction member: what it ends with after the host's
 * messages arrive in the order the host sends them, and what a leave command
 * does to a member waiting for its connection data.
 */
module MemberRuns {
  import opened Wrappers
  import opened Auctions
  import opened AuctionPhases
  import opened Protocol
  import opened ConnectionData
  import opened AuctionTasks
  import opened MemberProtocol
  import opened MemberInvariant

  /**
   * A member that receives the host's connection table reads back exactly the
   * host's party table (re-hosted in the emulator) and opens its
   * configuration latch.
   */
  lemma ReceiveHostConfiguration(m: Member, config: ClientConfiguration, partyId: int, auctionType: AuctionType,
                                 suite: ProtocolSuite, preprocessing: Preprocessing, parties: map<int, Party>, n: nat)
    requires WellFormedParties(parties, n)
    ensures var r := Received(m, config, AuctionConfiguration(partyId, auctionType, suite, preprocessing, ConnectionTable(parties, n)));
            && r.configurationReceived
            && r.network == Some(MemberNetwork(partyId, Rehost(parties, config.isEmulator)))
            && r.state == m.state && r.sent == m.sent && r.task == m.task
  {
    ParseConnectionTable(parties, n, config.isEmulator);
  }

  /**
   * A leave command in Registration wins over a connection-data request that
   * arrived as well: the wait ends in an abort with the leave message and no
   * further message is sent.
   */
  lemma LeaveWins(m: Member, config: ClientConfiguration)
    requires m.state == State.Registration && !m.stopped
    ensures var r := RegistrationEnds(Received(LeaveAuction(m), config, RequestConnectionData), config);
            && r.stopped && r.state == State.Registration && r.sent == m.sent
            && r.task == m.task.(localPhase := Abortion, errorMessage := Some(AuctionLeft))
            && r.completed == m.completed + [r.task]
  {
  }

  /** The first half of a successful run: a fresh member connects and is asked for its connection data. */
  lemma {:induction false} Registers(task: TaskRecord, config: ClientConfiguration)
    requires FreshTask(task)
    ensures var m1 := ConnectingEnds(Run(Initial(task), config), config, true);
            var m2 := RegistrationEnds(Received(m1, config, RequestConnectionData), config);
            && m2.state == SMPC_SetUp && !m2.stopped && !m2.serverDisconnected
            && m2.task == task.(localPhase := Running) && m2.completed == []
            && Consistent(m2, config)
  {
    var m0 := Initial(task);
    InitialConsistent(task, config);
    RunConsistent(m0, config);
    var m1 := ConnectingEnds(Run(m0, config), config, true);
    ConnectingEndsConsistent(Run(m0, config), config, true);
    ReceivedConsistent(m1, config, RequestConnectionData);
    RegistrationEndsConsistent(Received(m1, config, RequestConnectionData), config);
  }

  /**
   * The second half up to the evaluation: a member in SMPC_SetUp receives the
   * host's configuration and the start request and enters SMPC_Running with the
   * host's parties as its network.
   */
  lemma {:induction false} SetsUpAndStarts(m2: Member, config: ClientConfiguration, partyId: int,
                                           auctionType: AuctionType, suite: ProtocolSuite, preprocessing: Preprocessing,
                                           parties: map<int, Party>, n: nat)
    requires m2.state == SMPC_SetUp && !m2.stopped && !m2.serverDisconnected && Consistent(m2, config)
    requires WellFormedParties(parties, n)
    ensures var hostConfig := AuctionConfiguration(partyId, auctionType, suite, preprocessing, ConnectionTable(parties, n));
            var m3 := SmpcSetUpEnds(Received(m2, config, hostConfig), config);
            m3.state == SMPC_SetUpFinish && !m3.stopped &&
            var m4 := SmpcSetUpFinishEnds(Received(m3, config, RequestAuctionStart), config);
            && m4.state == SMPC_Running && !m4.stopped
            && m4.network == Some(MemberNetwork(partyId, Rehost(parties, config.isEmulator)))
            && m4.task == m2.task && m4.completed == m2.completed
            && Consistent(m4, config)
  {
    var hostConfig := AuctionConfiguration(partyId, auctionType, suite, preprocessing, ConnectionTable(parties, n));
    var r2 := Received(m2, config, hostConfig);
    ReceivedConsistent(m2, config, hostConfig);
    ReceiveHostConfiguration(m2, config, partyId, auctionType, suite, preprocessing, parties, n);
    var m3 := SmpcSetUpEnds(r2, config);
    SmpcSetUpEndsConsistent(r2, config);
    ReceivedConsistent(m3, config, RequestAuctionStart);
    SmpcSetUpFinishEndsConsistent(Received(m3, config, RequestAuctionStart), config);
  }

  /**
   * A fresh member that connects and receives the connection-data request,
   * the host's configuration and the start request, and whose evaluation
   * returns `result`, ends in Closure: it sent its four messages in protocol
   * order, the listener heard of the task once, and the task records whether
   * the member's own party won and the final price.
   */
  lemma {:induction false} SuccessfulRun(task: TaskRecord, config: ClientConfiguration, partyId: int,
                                         auctionType: AuctionType, suite: ProtocolSuite, preprocessing: Preprocessing,
                                         parties: map<int, Party>, n: nat, result: AuctionResult)
    requires FreshTask(task) && WellFormedParties(parties, n)
    ensures var hostConfig := AuctionConfiguration(partyId, auctionType, suite, preprocessing, ConnectionTable(parties, n));
            var m1 := ConnectingEnds(Run(Initial(task), config), config, true);
            var m2 := RegistrationEnds(Received(m1, config, RequestConnectionData), config);
            m2.state == SMPC_SetUp && !m2.stopped &&
            var m3 := SmpcSetUpEnds(Received(m2, config, hostConfig), config);
            m3.state == SMPC_SetUpFinish && !m3.stopped &&
            var m4 := SmpcSetUpFinishEnds(Received(m3, config, RequestAuctionStart), config);
            m4.state == SMPC_Running && !m4.stopped && m4.network.Some? &&
            var r := SmpcRunningEnds(m4, config, Some(result));
            && r.state == Closure && r.stopped
            && r.sent == Outgoing(config.clientId, task.smpcPort)
            && r.network == Some(MemberNetwork(partyId, Rehost(parties, config.isEmulator)))
            && r.task == task.(hasWon := partyId == result.winnerId, finalPrice := result.finalPrice, localPhase := Completion)
            && r.completed == [r.task]
            && Consistent(r, config)
  {
    var m1 := ConnectingEnds(Run(Initial(task), config), config, true);
    Registers(task, config);
    var m2 := RegistrationEnds(Received(m1, config, RequestConnectionData), config);
    SetsUpAndStarts(m2, config, partyId, auctionType, suite, preprocessing, parties, n);
    var hostConfig := AuctionConfiguration(partyId, auctionType, suite, preprocessing, ConnectionTable(parties, n));
    var m3 := SmpcSetUpEnds(Received(m2, config, hostConfig), config);
    var m4 := SmpcSetUpFinishEnds(Received(m3, config, RequestAuctionStart), config);
    SmpcRunningEndsConsistent(m4, config, Some(result));
    assert Outgoing(config.clientId, task.smpcPort)[..4] == Outgoing(config.clientId, task.smpcPort);
  }
}
