/**
 * The invariant an auction member keeps from its creation on, and the proof
 * that every event keeps it. It says that the member's messages go out in the
 * fixed protocol order, one more per phase entered; that the task's phase
 * label follows the worker's state; that the listener hears of the task once,
 * when the worker shuts down; and that a worker past SMPC_SetUp has a network
 * to run the evaluation on.
 */
module MemberInvariant {
  import opened Wrappers
  import opened Auctions
  import opened AuctionPhases
  import opened Protocol
  import opened ConnectionData
  import opened AuctionTasks
  import opened MemberProtocol

  /** Every message a member sends to its host, in the order it sends them. */
  function Outgoing(clientId: int, smpcPort: int): (msgs: seq<Message>)
    ensures |msgs| == 4
  {
    [Register(clientId), ResponseConnectionData(smpcPort), AuctionReady, ResponseAuctionStart]
  }

  /** How many of those messages have gone out once the worker has entered state `s`. */
  function SentCount(s: State): (n: nat)
    ensures n <= 4
  {
    match s
    case Unstarted => 0
    case Connecting => 0
    case Registration => 1
    case SMPC_SetUp => 2
    case SMPC_SetUpFinish => 3
    case SMPC_Running => 4
    case Closure => 4
  }

  /**
   * The task's phase label for a worker: aborted once it shut down outside
   * Closure, completed in Closure, Registration up to Registration and Running
   * from SMPC_SetUp on.
   */
  function ExpectedPhase(s: State, stopped: bool): AuctionPhase {
    if s == Closure then Completion
    else if stopped then Abortion
    else if s == Unstarted || s == Connecting || s == State.Registration then AuctionPhase.Registration
    else Running
  }

  /** A task as it is handed to a new worker: in Registration, no error, no price, not won. */
  predicate FreshTask(t: TaskRecord) {
    t.localPhase == AuctionPhase.Registration && t.errorMessage == None && t.finalPrice == -1 && !t.hasWon
  }

  /** The states from which the evaluation network is known. */
  predicate PastSetUp(s: State) {
    s == SMPC_SetUpFinish || s == SMPC_Running || s == Closure
  }

  ghost predicate Consistent(m: Member, config: ClientConfiguration) {
    // the listener is told once, when the worker shuts down, about this task
    && |m.completed| == (if m.stopped then 1 else 0)
    && (m.stopped ==> m.completed[0].auctionId == m.task.auctionId && m.completed[0].smpcPort == m.task.smpcPort)
    && (m.state == Closure ==> m.stopped)
    // messages go out in protocol order, one more for each phase entered
    && m.sent == Outgoing(config.clientId, m.task.smpcPort)[..SentCount(m.state)]
    // the task's labels and results follow the state
    && m.task.localPhase == ExpectedPhase(m.state, m.stopped)
    && (m.task.errorMessage.Some? <==> m.stopped && m.state != Closure)
    && (m.state != Closure ==> m.task.finalPrice == -1 && !m.task.hasWon)
    // every change of the task has been saved
    && (m.saved != [] ==> m.saved[|m.saved| - 1] == m.task)
    && (m.stopped || !(m.state == Unstarted || m.state == Connecting) ==> m.saved != [])
    // a leave command opens the connection-data latch
    && (m.leaveRequested ==> m.connectionDataRequested)
    // the configuration latch opens with a network, or with the disconnect
    && (m.configurationReceived && !m.serverDisconnected ==> m.network.Some?)
    && (PastSetUp(m.state) ==> m.network.Some?)
  }

  // ---------------------------------------------------------------------------
  // Every event keeps the invariant
  // ---------------------------------------------------------------------------

  lemma InitialConsistent(task: TaskRecord, config: ClientConfiguration)
    requires FreshTask(task)
    ensures Consistent(Initial(task), config)
  {
  }

  lemma SetBidConsistent(m: Member, config: ClientConfiguration, bid: int)
    requires Consistent(m, config)
    ensures Consistent(SetBid(m, bid), config)
  {
  }

  lemma LeaveAuctionConsistent(m: Member, config: ClientConfiguration)
    requires Consistent(m, config)
    ensures Consistent(LeaveAuction(m), config)
  {
  }

  lemma ReceivedConsistent(m: Member, config: ClientConfiguration, msg: Message)
    requires Consistent(m, config)
    ensures Consistent(Received(m, config, msg), config)
  {
  }

  lemma DisconnectedConsistent(m: Member, config: ClientConfiguration)
    requires Consistent(m, config)
    ensures Consistent(Disconnected(m), config)
  {
  }

  /** Shutting down a running worker whose task is labelled as the state demands. */
  lemma AbortConsistent(m: Member, config: ClientConfiguration, errorMessage: string)
    requires Consistent(m, config) && !m.stopped && m.state != Closure
    ensures Consistent(Abort(m, errorMessage), config)
  {
  }

  lemma RunConsistent(m: Member, config: ClientConfiguration)
    requires Consistent(m, config) && m.state == Unstarted && !m.stopped
    ensures Consistent(Run(m, config), config)
  {
  }

  lemma ConnectingEndsConsistent(m: Member, config: ClientConfiguration, connected: bool)
    requires Consistent(m, config) && m.state == Connecting && !m.stopped
    ensures Consistent(ConnectingEnds(m, config, connected), config)
  {
    if !connected {
      AbortConsistent(m, config, ConnectionFailed);
    }
  }

  lemma RegistrationEndsConsistent(m: Member, config: ClientConfiguration)
    requires Consistent(m, config) && m.state == State.Registration && !m.stopped
    ensures Consistent(RegistrationEnds(m, config), config)
  {
    if m.leaveRequested {
      AbortConsistent(m, config, AuctionLeft);
    } else if !(m.connectionDataRequested && !m.serverDisconnected) {
      AbortConsistent(m, config, ConnectionDataTimeout);
    }
  }

  lemma SmpcSetUpEndsConsistent(m: Member, config: ClientConfiguration)
    requires Consistent(m, config) && m.state == SMPC_SetUp && !m.stopped
    ensures Consistent(SmpcSetUpEnds(m, config), config)
  {
    if !(m.configurationReceived && !m.serverDisconnected) {
      AbortConsistent(m, config, ConfigurationTimeout);
    }
  }

  lemma SmpcSetUpFinishEndsConsistent(m: Member, config: ClientConfiguration)
    requires Consistent(m, config) && m.state == SMPC_SetUpFinish && !m.stopped
    ensures Consistent(SmpcSetUpFinishEnds(m, config), config)
  {
    if !(m.startSignalled && !m.serverDisconnected) {
      AbortConsistent(m, config, StartTimeout);
    }
  }

  lemma SmpcRunningEndsConsistent(m: Member, config: ClientConfiguration, result: Option<AuctionResult>)
    requires Consistent(m, config) && m.state == SMPC_Running && !m.stopped
    ensures m.network.Some?
    ensures Consistent(SmpcRunningEnds(m, config, result), config)
  {
    if result.None? {
      AbortConsistent(m, config, EvaluationAborted);
    }
  }
}
