/**
 * An auction member (auction-client ClientWorker) as a value and its events as
 * functions on that value. The `ClientWorkers` module implements each event as
 * a method of the stateful worker and proves it against the function here;
 * `MemberInvariant` proves the invariant the events keep.
 *
 * As on the host side, sockets, threads and timers are replaced by events: the
 * listener callbacks (`received`, `disconnected`), the commands the member's
 * user issues (`setBid`, `leaveAuction`), and the phase thread as a sequence of
 * "...Ends" events, each the end of one phase's wait (a connect attempt, a
 * latch `await` or the evaluation), the decision taken after it and the entry
 * code of the next phase up to its own wait. A latch is a boolean that is true
 * once opened. Messages to the host are logged in order, and so are the task
 * snapshots written to the repository and the `onCompleteTask` calls.
 */
module MemberProtocol {
  import opened Wrappers
  import opened Auctions
  import opened AuctionPhases
  import opened Protocol
  import opened ConnectionData
  import opened AuctionTasks

  /** The worker's state; `Unstarted` stands for the Java field's initial null. */
  datatype State = Unstarted | Connecting | Registration | SMPC_SetUp | SMPC_SetUpFinish | SMPC_Running | Closure

  /** The fields of `ClientConfiguration` a worker uses (durations are timing only). */
  datatype ClientConfiguration = ClientConfiguration(clientId: int, isEmulator: bool, frescoPortPool: seq<int>)

  /** FRESCO's `NetworkConfigurationImpl`: the member's own party id and every party by id. */
  datatype MemberNetwork = MemberNetwork(myId: int, parties: map<int, Party>)

  const ConnectionFailed := "Connection could not be established."
  const AuctionLeft := "Auction leaved."
  const ConnectionDataTimeout := "RequestConnectionData timeout."
  const ConfigurationTimeout := "AuctionConfiguration timeout."
  const StartTimeout := "RequestAuctionStart timeout."
  const EvaluationAborted := "Auction evaluation aborted."

  /**
   * Everything the worker's behaviour depends on: its state, whether it was shut
   * down, the task's current values, the three latches, the leave and
   * disconnect flags, the configuration the host sent and the network read
   * from it, and the logs of messages sent, task snapshots saved and
   * `onCompleteTask` calls.
   */
  datatype Member = Member(
    state: State, stopped: bool, task: TaskRecord,
    connectionDataRequested: bool, configurationReceived: bool, startSignalled: bool,
    leaveRequested: bool, serverDisconnected: bool,
    configuration: Option<Message>, network: Option<MemberNetwork>,
    sent: seq<Message>, saved: seq<TaskRecord>, completed: seq<TaskRecord>)

  /** The states in which `setBid` and `leaveAuction` take effect. */
  predicate AcceptsCommands(s: State) {
    s == Connecting || s == State.Registration
  }

  /** A worker for `task`, not yet run. */
  function Initial(task: TaskRecord): (m: Member)
    ensures m.state == Unstarted && !m.stopped && m.task == task
    ensures !m.connectionDataRequested && !m.configurationReceived && !m.startSignalled
    ensures !m.leaveRequested && !m.serverDisconnected
    ensures m.sent == [] && m.saved == [] && m.completed == []
  {
    Member(Unstarted, false, task, false, false, false, false, false, None, None, [], [], [])
  }

  // ---------------------------------------------------------------------------
  // Commands
  // ---------------------------------------------------------------------------

  /** `setBid`: in Connecting or Registration, change the bid and save the task; otherwise nothing. */
  function SetBid(m: Member, bid: int): (r: Member)
    ensures AcceptsCommands(m.state) ==> r == m.(task := m.task.(currentBid := bid), saved := m.saved + [r.task])
    ensures !AcceptsCommands(m.state) ==> r == m
  {
    if AcceptsCommands(m.state) then
      var task := m.task.(currentBid := bid);
      m.(task := task, saved := m.saved + [task])
    else m
  }

  /**
   * `leaveAuction`: in Connecting or Registration, open the connection-data
   * latch so that Registration stops waiting, and note the leave; otherwise
   * nothing.
   */
  function LeaveAuction(m: Member): (r: Member)
    ensures AcceptsCommands(m.state) ==> r == m.(connectionDataRequested := true, leaveRequested := true)
    ensures !AcceptsCommands(m.state) ==> r == m
  {
    if AcceptsCommands(m.state) then m.(connectionDataRequested := true, leaveRequested := true) else m
  }

  // ---------------------------------------------------------------------------
  // Listener callbacks
  // ---------------------------------------------------------------------------

  /**
   * `setUpParties`: keep the configuration, then read its connection table;
   * if every entry reads, the network is the member's party id with the parties
   * read, otherwise (Java throws from inside the loop) the network is unchanged.
   */
  function SetUpParties(m: Member, config: ClientConfiguration, msg: Message): (r: (Member, bool))
    requires msg.AuctionConfiguration?
    ensures r.0.configuration == Some(msg)
    ensures r.1 <==> ParseTable(msg.connectionData, config.isEmulator).Some?
    ensures r.1 ==> r.0.network == Some(MemberNetwork(msg.partyId, ParseTable(msg.connectionData, config.isEmulator).value))
    ensures !r.1 ==> r.0.network == m.network
    ensures r.0.(configuration := m.configuration, network := m.network) == m
  {
    var parsed := ParseTable(msg.connectionData, config.isEmulator);
    if parsed.Some? then (m.(configuration := Some(msg), network := Some(MemberNetwork(msg.partyId, parsed.value))), true)
    else (m.(configuration := Some(msg)), false)
  }

  /**
   * `received`: a connection-data request or a start request opens its latch;
   * a configuration is read by `setUpParties` and opens its latch once read;
   * any other message is ignored. The state plays no part.
   */
  function Received(m: Member, config: ClientConfiguration, msg: Message): (r: Member)
    ensures msg.RequestConnectionData? ==> r == m.(connectionDataRequested := true)
    ensures msg.RequestAuctionStart? ==> r == m.(startSignalled := true)
    ensures msg.AuctionConfiguration? ==>
      r == SetUpParties(m, config, msg).0.(configurationReceived := m.configurationReceived || SetUpParties(m, config, msg).1)
    ensures !(msg.RequestConnectionData? || msg.RequestAuctionStart? || msg.AuctionConfiguration?) ==> r == m
  {
    match msg
    case RequestConnectionData => m.(connectionDataRequested := true)
    case AuctionConfiguration(_, _, _, _, _) =>
      var (m', read) := SetUpParties(m, config, msg);
      if read then m'.(configurationReceived := true) else m'
    case RequestAuctionStart => m.(startSignalled := true)
    case _ => m
  }

  /**
   * `disconnected`: note the lost connection and open the latch the current
   * state waits on, and only that one.
   */
  function Disconnected(m: Member): (r: Member)
    ensures r.serverDisconnected
    ensures r.connectionDataRequested <==> m.connectionDataRequested || m.state == State.Registration
    ensures r.configurationReceived <==> m.configurationReceived || m.state == SMPC_SetUp
    ensures r.startSignalled <==> m.startSignalled || m.state == SMPC_SetUpFinish
    ensures r.(serverDisconnected := m.serverDisconnected, connectionDataRequested := m.connectionDataRequested,
               configurationReceived := m.configurationReceived, startSignalled := m.startSignalled) == m
  {
    m.(serverDisconnected := true,
       connectionDataRequested := m.connectionDataRequested || m.state == State.Registration,
       configurationReceived := m.configurationReceived || m.state == SMPC_SetUp,
       startSignalled := m.startSignalled || m.state == SMPC_SetUpFinish)
  }

  // ---------------------------------------------------------------------------
  // The phase thread
  // ---------------------------------------------------------------------------

  /** `shutdown`: stop the connection and report the task to the listener. */
  function Shutdown(m: Member): (r: Member)
    ensures r == m.(stopped := true, completed := m.completed + [m.task])
  {
    m.(stopped := true, completed := m.completed + [m.task])
  }

  /** `changeToErrorState`: mark the task aborted with the message, save it and shut down; the state is kept. */
  function Abort(m: Member, errorMessage: string): (r: Member)
    ensures r.state == m.state && r.stopped
    ensures r.task == m.task.(localPhase := Abortion, errorMessage := Some(errorMessage))
    ensures r.saved == m.saved + [r.task] && r.completed == m.completed + [r.task]
    ensures r.sent == m.sent
  {
    var task := m.task.(localPhase := Abortion, errorMessage := Some(errorMessage));
    Shutdown(m.(task := task, saved := m.saved + [task]))
  }

  /**
   * `changeToState`: enter `target` and run that phase's code up to its wait:
   * Connecting starts the connect attempt; Registration marks and saves the
   * task and sends `Register`; SMPC_SetUp marks and saves the task and sends
   * the evaluation port; SMPC_SetUpFinish sends `AuctionReady`; SMPC_Running
   * starts the evaluation and sends `ResponseAuctionStart`; Closure marks the
   * task completed, saves it and shuts down.
   */
  function ChangeToState(m: Member, config: ClientConfiguration, target: State): (r: Member)
    requires target != Unstarted
    ensures r.state == target
    ensures r.stopped <==> m.stopped || target == Closure
  {
    var m' := m.(state := target);
    match target
    case Connecting => m'
    case Registration =>
      var task := m.task.(localPhase := AuctionPhase.Registration);
      m'.(task := task, saved := m.saved + [task], sent := m.sent + [Register(config.clientId)])
    case SMPC_SetUp =>
      var task := m.task.(localPhase := Running);
      m'.(task := task, saved := m.saved + [task], sent := m.sent + [ResponseConnectionData(task.smpcPort)])
    case SMPC_SetUpFinish => m'.(sent := m.sent + [AuctionReady])
    case SMPC_Running => m'.(sent := m.sent + [ResponseAuctionStart])
    case Closure => Closing(m')
  }

  /** `closure`: mark the task completed, save it and shut down. */
  function Closing(m: Member): (r: Member)
    ensures r.task == m.task.(localPhase := Completion)
    ensures r == Shutdown(m.(task := r.task, saved := m.saved + [r.task]))
  {
    var task := m.task.(localPhase := Completion);
    Shutdown(m.(task := task, saved := m.saved + [task]))
  }

  /** `run`: enter Connecting. */
  function Run(m: Member, config: ClientConfiguration): (r: Member)
    requires m.state == Unstarted && !m.stopped
    ensures r == m.(state := Connecting)
  {
    ChangeToState(m, config, Connecting)
  }

  /** End of the connect attempt (`connecting`): enter Registration if it connected, otherwise abort. */
  function ConnectingEnds(m: Member, config: ClientConfiguration, connected: bool): (r: Member)
    requires m.state == Connecting && !m.stopped
    ensures !connected ==> r == Abort(m, ConnectionFailed)
    ensures connected ==> r.state == State.Registration && !r.stopped
    ensures connected ==> r.sent == m.sent + [Register(config.clientId)]
    ensures connected ==> r.task == m.task.(localPhase := AuctionPhase.Registration) && r.saved == m.saved + [r.task]
  {
    if connected then ChangeToState(m, config, State.Registration) else Abort(m, ConnectionFailed)
  }

  /**
   * End of the connection-data wait (`registration`): a leave command wins;
   * otherwise enter SMPC_SetUp if the latch opened and the host is still
   * connected, and abort on the timeout if not.
   */
  function RegistrationEnds(m: Member, config: ClientConfiguration): (r: Member)
    requires m.state == State.Registration && !m.stopped
    ensures m.leaveRequested ==> r == Abort(m, AuctionLeft)
    ensures !m.leaveRequested && !(m.connectionDataRequested && !m.serverDisconnected) ==> r == Abort(m, ConnectionDataTimeout)
    ensures !m.leaveRequested && m.connectionDataRequested && !m.serverDisconnected ==>
      && r.state == SMPC_SetUp && !r.stopped
      && r.task == m.task.(localPhase := Running) && r.saved == m.saved + [r.task]
      && r.sent == m.sent + [ResponseConnectionData(m.task.smpcPort)]
  {
    if m.leaveRequested then Abort(m, AuctionLeft)
    else if m.connectionDataRequested && !m.serverDisconnected then ChangeToState(m, config, SMPC_SetUp)
    else Abort(m, ConnectionDataTimeout)
  }

  /**
   * End of the configuration wait (`smpcSetUp`): enter SMPC_SetUpFinish if the
   * latch opened and the host is still connected, otherwise abort on the timeout.
   */
  function SmpcSetUpEnds(m: Member, config: ClientConfiguration): (r: Member)
    requires m.state == SMPC_SetUp && !m.stopped
    ensures !(m.configurationReceived && !m.serverDisconnected) ==> r == Abort(m, ConfigurationTimeout)
    ensures m.configurationReceived && !m.serverDisconnected ==>
      r == m.(state := SMPC_SetUpFinish, sent := m.sent + [AuctionReady])
  {
    if m.configurationReceived && !m.serverDisconnected then ChangeToState(m, config, SMPC_SetUpFinish)
    else Abort(m, ConfigurationTimeout)
  }

  /**
   * End of the start wait (`smpcSetUpFinish`): enter SMPC_Running if the latch
   * opened and the host is still connected, otherwise abort on the timeout.
   */
  function SmpcSetUpFinishEnds(m: Member, config: ClientConfiguration): (r: Member)
    requires m.state == SMPC_SetUpFinish && !m.stopped
    ensures !(m.startSignalled && !m.serverDisconnected) ==> r == Abort(m, StartTimeout)
    ensures m.startSignalled && !m.serverDisconnected ==>
      r == m.(state := SMPC_Running, sent := m.sent + [ResponseAuctionStart])
  {
    if m.startSignalled && !m.serverDisconnected then ChangeToState(m, config, SMPC_Running)
    else Abort(m, StartTimeout)
  }

  /**
   * End of the evaluation (`smpcRunning`): with a result, the task records
   * whether this member's party won and the final price, and the worker enters
   * Closure; without one, abort.
   */
  function SmpcRunningEnds(m: Member, config: ClientConfiguration, result: Option<AuctionResult>): (r: Member)
    requires m.state == SMPC_Running && !m.stopped && m.network.Some?
    ensures result.None? ==> r == Abort(m, EvaluationAborted)
    ensures result.Some? ==>
      && r.state == Closure && r.stopped && r.sent == m.sent
      && r.task == m.task.(hasWon := m.network.value.myId == result.value.winnerId,
                           finalPrice := result.value.finalPrice, localPhase := Completion)
      && r.saved == m.saved + [r.task] && r.completed == m.completed + [r.task]
  {
    if result.Some? then
      var task := m.task.(hasWon := m.network.value.myId == result.value.winnerId, finalPrice := result.value.finalPrice);
      ChangeToState(m.(task := task), config, Closure)
    else Abort(m, EvaluationAborted)
  }
}
