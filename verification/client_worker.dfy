/**
 * The member's worker for one auction (auction-client ClientWorker) as a
 * stateful object. Every method is proved against the function of the same
 * event in `MemberProtocol`: its new state is that function of its old state,
 * so what `MemberInvariant` proves about the functions (the invariant every
 * event keeps) holds of the worker.
 *
 * The connection, the evaluation engine and the phase timers are replaced as
 * described there: the connect attempt's outcome and the evaluation's result
 * are parameters, the latches are booleans, messages to the host are logged in
 * `sent`, the repository's `updateAuctionTask` calls in `saved` and the
 * listener's `onCompleteTask` calls in `completed`.
 */
module ClientWorkers {
  import opened Wrappers
  import opened Auctions
  import opened AuctionPhases
  import opened Protocol
  import opened ConnectionData
  import opened AuctionTasks
  import opened MemberProtocol
  import MemberInvariant

  class ClientWorker {
    const clientConfig: ClientConfiguration
    const task: AuctionTask
    var state: State
    var stopped: bool
    var receivedConnectionDataRequest: bool
    var receivedAuctionConfiguration: bool
    var receivedStartSignal: bool
    var receivedLeaveCommand: bool
    var serverDisconnected: bool
    var auctionConfiguration: Option<Message>
    var networkConfiguration: Option<MemberNetwork>
    var sent: seq<Message>
    var saved: seq<TaskRecord>
    var completed: seq<TaskRecord>

    /** The worker and its task as a `MemberProtocol.Member` value. */
    function View(): Member
      reads this, task
    {
      Member(state, stopped, task.Record(),
             receivedConnectionDataRequest, receivedAuctionConfiguration, receivedStartSignal,
             receivedLeaveCommand, serverDisconnected,
             auctionConfiguration, networkConfiguration, sent, saved, completed)
    }

    /** A worker for `task`, not yet run. */
    constructor (clientConfig: ClientConfiguration, task: AuctionTask)
      ensures this.clientConfig == clientConfig && this.task == task
      ensures View() == Initial(task.Record())
      ensures MemberInvariant.FreshTask(task.Record()) ==> MemberInvariant.Consistent(View(), clientConfig)
    {
      this.clientConfig := clientConfig;
      this.task := task;
      state := Unstarted;
      stopped := false;
      receivedConnectionDataRequest := false;
      receivedAuctionConfiguration := false;
      receivedStartSignal := false;
      receivedLeaveCommand := false;
      serverDisconnected := false;
      auctionConfiguration := None;
      networkConfiguration := None;
      sent := [];
      saved := [];
      completed := [];
      new;
      if MemberInvariant.FreshTask(task.Record()) {
        MemberInvariant.InitialConsistent(task.Record(), clientConfig);
      }
    }

    // -------------------------------------------------------------------------
    // Commands
    // -------------------------------------------------------------------------

    /** `setBid`. */
    method SetBid(bid: int)
      modifies this`saved, task`currentBid
      ensures View() == MemberProtocol.SetBid(old(View()), bid)
    {
      if state == Connecting || state == State.Registration {
        task.SetCurrentBid(bid);
        UpdateAuctionTask();
      }
    }

    /** `leaveAuction`. */
    method LeaveAuction()
      modifies this`receivedConnectionDataRequest, this`receivedLeaveCommand
      ensures View() == MemberProtocol.LeaveAuction(old(View()))
    {
      if state == Connecting || state == State.Registration {
        receivedConnectionDataRequest := true;
        receivedLeaveCommand := true;
      }
    }

    // -------------------------------------------------------------------------
    // Listener callbacks
    // -------------------------------------------------------------------------

    /**
     * `setUpParties`: keep the configuration and read its connection table entry
     * by entry; `read` is false where Java throws out of the loop.
     */
    method SetUpParties(msg: Message) returns (read: bool)
      requires msg.AuctionConfiguration?
      modifies this`auctionConfiguration, this`networkConfiguration
      ensures (View(), read) == MemberProtocol.SetUpParties(old(View()), clientConfig, msg)
    {
      auctionConfiguration := Some(msg);
      var entries := msg.connectionData;
      var parties: map<int, Party> := map[];
      var i := 0;
      while i < |entries|
        invariant 0 <= i <= |entries|
        invariant ParseTable(entries[..i], clientConfig.isEmulator) == Some(parties)
        invariant auctionConfiguration == Some(msg) && networkConfiguration == old(networkConfiguration)
      {
        var party := ParseEntry(entries[i], clientConfig.isEmulator);
        if party.None? {
          ParseTableFailsAt(entries, clientConfig.isEmulator, i);
          return false;
        }
        ParseTableNext(entries, clientConfig.isEmulator, i, parties, party.value);
        parties := parties[party.value.partyId := party.value];
        i := i + 1;
      }
      assert entries[..i] == entries;
      networkConfiguration := Some(MemberNetwork(msg.partyId, parties));
      read := true;
    }

    /** `received`. */
    method Received(msg: Message)
      modifies this`receivedConnectionDataRequest, this`receivedAuctionConfiguration, this`receivedStartSignal
      modifies this`auctionConfiguration, this`networkConfiguration
      ensures View() == MemberProtocol.Received(old(View()), clientConfig, msg)
    {
      match msg {
        case RequestConnectionData =>
          receivedConnectionDataRequest := true;
        case AuctionConfiguration(_, _, _, _, _) =>
          var read := SetUpParties(msg);
          if read {
            receivedAuctionConfiguration := true;
          }
        case RequestAuctionStart =>
          receivedStartSignal := true;
        case _ =>
      }
    }

    /** `disconnected`. */
    method Disconnected()
      modifies this`serverDisconnected, this`receivedConnectionDataRequest
      modifies this`receivedAuctionConfiguration, this`receivedStartSignal
      ensures View() == MemberProtocol.Disconnected(old(View()))
    {
      serverDisconnected := true;
      if state == State.Registration {
        receivedConnectionDataRequest := true;
      } else if state == SMPC_SetUp {
        receivedAuctionConfiguration := true;
      } else if state == SMPC_SetUpFinish {
        receivedStartSignal := true;
      }
    }

    // -------------------------------------------------------------------------
    // The phase thread
    // -------------------------------------------------------------------------

    /** `repository.updateAuctionTask(task)`: save the task's current values. */
    method UpdateAuctionTask()
      modifies this`saved
      ensures saved == old(saved) + [task.Record()]
    {
      saved := saved + [task.Record()];
    }

    /** `shutdown`: stop the connection and report the task to the listener. */
    method Shutdown()
      modifies this`stopped, this`completed
      ensures View() == MemberProtocol.Shutdown(old(View()))
    {
      stopped := true;
      completed := completed + [task.Record()];
    }

    /** `changeToErrorState`. */
    method ChangeToErrorState(errorMessage: string)
      modifies this`saved, this`stopped, this`completed, task`localPhase, task`errorMessage
      ensures View() == MemberProtocol.Abort(old(View()), errorMessage)
    {
      task.SetLocalPhase(Abortion);
      task.SetErrorMessage(errorMessage);
      UpdateAuctionTask();
      Shutdown();
    }

    /** `closure`. */
    method Closing()
      modifies this`saved, this`stopped, this`completed, task`localPhase
      ensures View() == MemberProtocol.Closing(old(View()))
    {
      task.SetLocalPhase(Completion);
      UpdateAuctionTask();
      Shutdown();
    }

    /** `changeToState`: enter `target` and run that phase's code up to its wait. */
    method ChangeToState(target: State)
      requires target != Unstarted
      modifies this`state, this`sent, this`saved, this`stopped, this`completed, task`localPhase
      ensures View() == MemberProtocol.ChangeToState(old(View()), clientConfig, target)
    {
      state := target;
      match target
      case Connecting =>
      case Registration =>
        task.SetLocalPhase(AuctionPhase.Registration);
        UpdateAuctionTask();
        sent := sent + [Register(clientConfig.clientId)];
      case SMPC_SetUp =>
        task.SetLocalPhase(Running);
        UpdateAuctionTask();
        sent := sent + [ResponseConnectionData(task.smpcPort)];
      case SMPC_SetUpFinish =>
        sent := sent + [AuctionReady];
      case SMPC_Running =>
        sent := sent + [ResponseAuctionStart];
      case Closure =>
        Closing();
    }

    /** `run`. */
    method Run()
      requires state == Unstarted && !stopped
      modifies this`state, this`sent, this`saved, this`stopped, this`completed, task`localPhase
      ensures View() == MemberProtocol.Run(old(View()), clientConfig)
    {
      ChangeToState(Connecting);
    }

    /** End of the connect attempt in `connecting`. */
    method ConnectingEnds(connected: bool)
      requires state == Connecting && !stopped
      modifies this`state, this`sent, this`saved, this`stopped, this`completed, task`localPhase, task`errorMessage
      ensures View() == MemberProtocol.ConnectingEnds(old(View()), clientConfig, connected)
    {
      if connected {
        ChangeToState(State.Registration);
      } else {
        ChangeToErrorState(ConnectionFailed);
      }
    }

    /** End of the connection-data wait in `registration`. */
    method RegistrationEnds()
      requires state == State.Registration && !stopped
      modifies this`state, this`sent, this`saved, this`stopped, this`completed, task`localPhase, task`errorMessage
      ensures View() == MemberProtocol.RegistrationEnds(old(View()), clientConfig)
    {
      if receivedLeaveCommand {
        ChangeToErrorState(AuctionLeft);
      } else if receivedConnectionDataRequest && !serverDisconnected {
        ChangeToState(SMPC_SetUp);
      } else {
        ChangeToErrorState(ConnectionDataTimeout);
      }
    }

    /** End of the configuration wait in `smpcSetUp`. */
    method SmpcSetUpEnds()
      requires state == SMPC_SetUp && !stopped
      modifies this`state, this`sent, this`saved, this`stopped, this`completed, task`localPhase, task`errorMessage
      ensures View() == MemberProtocol.SmpcSetUpEnds(old(View()), clientConfig)
    {
      if receivedAuctionConfiguration && !serverDisconnected {
        ChangeToState(SMPC_SetUpFinish);
      } else {
        ChangeToErrorState(ConfigurationTimeout);
      }
    }

    /** End of the start wait in `smpcSetUpFinish`. */
    method SmpcSetUpFinishEnds()
      requires state == SMPC_SetUpFinish && !stopped
      modifies this`state, this`sent, this`saved, this`stopped, this`completed, task`localPhase, task`errorMessage
      ensures View() == MemberProtocol.SmpcSetUpFinishEnds(old(View()), clientConfig)
    {
      if receivedStartSignal && !serverDisconnected {
        ChangeToState(SMPC_Running);
      } else {
        ChangeToErrorState(StartTimeout);
      }
    }

    /** End of the evaluation in `smpcRunning`: `result` is what the engine returned, if anything. */
    method SmpcRunningEnds(result: Option<AuctionResult>)
      requires state == SMPC_Running && !stopped && networkConfiguration.Some?
      modifies this`state, this`sent, this`saved, this`stopped, this`completed
      modifies task`localPhase, task`errorMessage, task`hasWon, task`finalPrice
      ensures View() == MemberProtocol.SmpcRunningEnds(old(View()), clientConfig, result)
    {
      if result.Some? {
        task.SetHasWon(networkConfiguration.value.myId == result.value.winnerId);
        task.SetFinalPrice(result.value.finalPrice);
        ChangeToState(Closure);
      } else {
        ChangeToErrorState(EvaluationAborted);
      }
    }
  }
}
