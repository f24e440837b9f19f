# smpc-auction: the auction protocol and the plaintext auctions

This project models the core of smpc-auction in Dafny. In smpc-auction, an
auction host (the `auction-platform` ServerWorker) and its members (the
`auction-client` ClientWorker) run a sealed-bid auction as a secure
multi-party computation on the FRESCO engine. The model covers five parts:

- **The host's state machine.** The host goes through Registration,
  SMPC_SetUp, SMPC_SetUpFinish, SMPC_Running and Closure. It keeps one
  `ClientData` record per registered connection, waits on two all-of
  barriers, assigns party ids 1..N and sends the `id:host:port` connection
  table. It then asks the members to start one at a time, in descending
  party-id order.
- **The member's state machine.** The member goes through Connecting,
  Registration, SMPC_SetUp, SMPC_SetUpFinish, SMPC_Running and Closure. It
  mutates its `AuctionTask`, accepts `setBid` and `leaveAuction`, reads the
  host's table and records the outcome of the evaluation.
- **The member's worker registry** (`ClientMaster`). It keeps a LIFO pool of
  evaluation ports and one worker per joined auction. Its invariant ties
  each worker's task to the auction it is registered under and to the port
  lent to that auction. The free ports and the workers together account for
  every configured port, and no two workers evaluate on the same port.
- **The auction computations, read in plaintext.** These are the sealed
  first-price and second-price auctions and the `CalcSum` test application.
  The model also covers their shared constructor validation and
  `AuctionFactory`.
- **The `AuctionPhase` name codec.**

Each side of the protocol has three layers:

- **Protocol module** (`HostProtocol`, `MemberProtocol`). A pure `datatype`
  holds everything the behaviour depends on, and each event is a function
  on it.
- **Invariant module** (`HostInvariant`, `MemberInvariant`). It proves that
  the initial value satisfies the protocol invariant and that every event
  keeps it.
- **Class** (`ServerWorkers.ServerWorker`, `ClientWorkers.ClientWorker`). It
  holds the Java fields and updates them in place. Each method is proved
  against the event function of the same name: its new `View()` is that
  function applied to the old one.

Sockets and threads become events:

- Each listener callback (`received`, `disconnected`) is an event.
- The phase thread is a sequence of "…Ends" events. Each one models the end
  of one wait (a sleep, or a `CountDownLatch.await` that saw its latch open
  or timed out), the decision taken after it, and the code of the next phase
  up to its own wait.
- A latch is a boolean that becomes true once it is counted down.
- Sent messages, closed connections, listener calls, saved task snapshots
  and `onCompleteTask` calls are logged as sequences.

Some inputs come from outside and become parameters of the events that use
them: Java hash-map iteration orders, the `Collections.shuffle` permutation,
the IP lookup of a connection, the connect outcome and the engine's result.

The auction classes are read with `compareLEQ(a, b)` as `a <= b`,
`condSelect(c, x, y)` as `if c then x else y` and `open` as the identity.
Their scans are methods with loop invariants, proved against declarative
reference functions in `Bids`:

- `MaxBid` is the maximum bid.
- `TopIndex` is the last index that holds the maximum.
- `SecondBid` is the maximum after removing that one occurrence, or 0.
- `Sum` is the sum of the bids.

## Model

| member | source | states |
|---|---|---|
| ClientDataRecord.FreshRecord | auction-platform/src/main/java/auctionplatform/worker/ClientData.java:14-27 | a new record carries the given client id, party id -1, port -1 and not ready, so its port counts as not provided |
| ClientDataRecord.ClientData.constructor | auction-platform/src/main/java/auctionplatform/worker/ClientData.java:25-27 | the constructed record holds exactly the initial values of `FreshRecord` |
| ClientDataRecord.ClientData.FrescoPortAvailable | auction-platform/src/main/java/auctionplatform/worker/ClientData.java:33-35 | true exactly when the port is non-negative, so port 0 counts as provided |
| ClientDataRecord.ClientData.SetFrescoPartyId | auction-platform/src/main/java/auctionplatform/worker/ClientData.java:10-16 | replaces the party id and leaves every other field, the client id included, unchanged |
| ClientDataRecord.ClientData.SetFrescoPort | auction-platform/src/main/java/auctionplatform/worker/ClientData.java:10-20 | replaces the port and leaves every other field unchanged |
| ClientDataRecord.ClientData.SetReadyForAuctionEvaluation | auction-platform/src/main/java/auctionplatform/worker/ClientData.java:10-18 | replaces the ready flag and leaves every other field unchanged |
| HostProtocol.Initial | auction-platform/src/main/java/auctionplatform/worker/ServerWorker.java:60-63 | a new host has no state yet, no registered member and all three latches closed |
| HostProtocol.Run | auction-platform/src/main/java/auctionplatform/worker/ServerWorker.java:232-238 | the host enters Registration if the message server started and otherwise shuts down with "Server cannot be started." |
| HostProtocol.Received | auction-platform/src/main/java/auctionplatform/worker/ServerWorker.java:66-121 | each state acts on its own message kind only; no message changes the state, the shutdown flag, the listener calls or the network, and at most the sender gains a record |
| HostProtocol.ReceivedRegister | auction-platform/src/main/java/auctionplatform/worker/ServerWorker.java:69-80 | a client id already registered closes the connection and leaves the records unchanged; any other id adds a fresh record under the connection id |
| HostProtocol.ReceivedConnectionData | auction-platform/src/main/java/auctionplatform/worker/ServerWorker.java:81-92 | an unregistered sender is closed and nothing else changes; a registered sender's port is stored; the port latch is open exactly when it was already open or every record now has a port |
| HostProtocol.ReceivedAuctionReady | auction-platform/src/main/java/auctionplatform/worker/ServerWorker.java:93-102 | an unregistered sender is closed; a registered one is marked ready; the ready latch is open exactly when it was open or every record is now ready |
| HostProtocol.ReceivedAuctionStart | auction-platform/src/main/java/auctionplatform/worker/ServerWorker.java:103-117 | a response from anyone but the head of the starting order is ignored; the head's response pops it, and the start latch opens exactly when the order becomes empty |
| HostProtocol.Disconnected | auction-platform/src/main/java/auctionplatform/worker/ServerWorker.java:124-130 | the record is removed only in Registration, and nothing else changes; the flag reports the null dereference, which happens exactly in Registration for a connection without a record |
| HostProtocol.RegistrationEnds | auction-platform/src/main/java/auctionplatform/worker/ServerWorker.java:245-280 | with no member the host shuts down ("No clients registered."); otherwise it enters SMPC_SetUp and asks every member for its port |
| HostProtocol.SmpcSetUpEnds | auction-platform/src/main/java/auctionplatform/worker/ServerWorker.java:261-271 | an unopened port latch aborts with "At least one client does not respond to RequestConnectionData."; otherwise the host enters SMPC_SetUpFinish and stops exactly when there are fewer than two parties |
| HostProtocol.SmpcSetUpFinish | auction-platform/src/main/java/auctionplatform/worker/ServerWorker.java:289-302 | entering SMPC_SetUpFinish assigns the parties and shuts down exactly when there are at most one |
| HostProtocol.DistributeConfig | auction-platform/src/main/java/auctionplatform/worker/ServerWorker.java:290-301 | with more than one party the configuration goes out; otherwise the host aborts with "Number of parties is below 2."; records and network stay as assigned |
| HostProtocol.SetUpParties | auction-platform/src/main/java/auctionplatform/worker/ServerWorker.java:135-154 | the network holds parties 1..n, each stored under its own id, and the set of registered connections is unchanged |
| HostProtocol.Resolved | auction-platform/src/main/java/auctionplatform/worker/ServerWorker.java:141-150 | the connections that get a party id are exactly those of the shuffled order whose address resolves |
| HostProtocol.Broadcast | auction-platform/src/main/java/auctionplatform/worker/ServerWorker.java:276-280 | one copy of the message goes to each connection of the iteration order, in that order |
| HostProtocol.ConfigMessages | auction-platform/src/main/java/auctionplatform/worker/ServerWorker.java:174-185 | each member receives one `AuctionConfiguration` that carries its own party id, the auction settings and the connection table |
| HostProtocol.StartingOrder | auction-platform/src/main/java/auctionplatform/worker/ServerWorker.java:355-360 | the starting order is a permutation of the registered connections |
| HostProtocol.InsertByPartyId | auction-platform/src/main/java/auctionplatform/worker/ServerWorker.java:356-359 | one insertion step of the stable sort; it adds the entry and loses nothing |
| HostProtocol.InsertKeepsDescending | auction-platform/src/main/java/auctionplatform/worker/ServerWorker.java:356-359 | inserting into a list sorted by descending party id keeps it sorted |
| HostProtocol.StartingOrderDescending | auction-platform/src/main/java/auctionplatform/worker/ServerWorker.java:355-360 | the starting order lists party ids in descending order |
| HostProtocol.SmpcSetUpFinishEnds | auction-platform/src/main/java/auctionplatform/worker/ServerWorker.java:293-300 | an unopened ready latch aborts with "At least one client is not ready for auction evaluation."; otherwise the host enters SMPC_Running with the records unchanged |
| HostProtocol.SmpcRunning | auction-platform/src/main/java/auctionplatform/worker/ServerWorker.java:311-315 | the starting order is the sorted one; its head is asked to start; an empty order aborts with "Auction evaluation cannot be started." |
| HostProtocol.SmpcRunningEnds | auction-platform/src/main/java/auctionplatform/worker/ServerWorker.java:316-337 | the listener gets exactly one more call: completion with the winner when all members started and there is a result, otherwise the matching error; Closure is reached exactly on completion |
| HostProtocol.ClosureEnds | auction-platform/src/main/java/auctionplatform/worker/ServerWorker.java:366-374 | the host shuts down and nothing else changes |
| HostProtocol.AssignedIdsAt | auction-platform/src/main/java/auctionplatform/worker/ServerWorker.java:141-150 | the j-th resolved connection gets party id j + 2, so different connections get different ids |
| HostProtocol.PartyTableEntries | auction-platform/src/main/java/auctionplatform/worker/ServerWorker.java:136-150 | the host is party 1; the j-th resolved connection is party j + 2 at its address and reported port |
| HostProtocol.PartyTableKeys | auction-platform/src/main/java/auctionplatform/worker/ServerWorker.java:136-153 | the network holds exactly the parties 1..(number resolved + 1) |
| HostInvariant.InitialConsistent | auction-platform/src/main/java/auctionplatform/worker/ServerWorker.java:60-63 | a new host satisfies the protocol invariant |
| HostInvariant.RunConsistent | auction-platform/src/main/java/auctionplatform/worker/ServerWorker.java:232-238 | `run` keeps the invariant |
| HostInvariant.RegisterConsistent | auction-platform/src/main/java/auctionplatform/worker/ServerWorker.java:69-80 | registering keeps client ids pairwise distinct, and keeps the rest of the invariant |
| HostInvariant.PortResponseConsistent | auction-platform/src/main/java/auctionplatform/worker/ServerWorker.java:81-92 | a port report keeps the invariant; with every port in, the latch is open |
| HostInvariant.ReadyResponseConsistent | auction-platform/src/main/java/auctionplatform/worker/ServerWorker.java:93-102 | a ready report keeps the invariant, and party ids and ports stay as assigned |
| HostInvariant.StartResponseConsistent | auction-platform/src/main/java/auctionplatform/worker/ServerWorker.java:103-117 | a start response keeps the start handshake: the members asked so far, followed by the rest of the order, list every member once in descending party id |
| HostInvariant.ReceivedConsistent | auction-platform/src/main/java/auctionplatform/worker/ServerWorker.java:66-121 | every message keeps the invariant |
| HostInvariant.DisconnectedConsistent | auction-platform/src/main/java/auctionplatform/worker/ServerWorker.java:124-130 | a disconnect keeps the invariant |
| HostInvariant.RegistrationEndsConsistent | auction-platform/src/main/java/auctionplatform/worker/ServerWorker.java:245-280 | the end of registration keeps the invariant |
| HostInvariant.SetUpPartiesAssigned | auction-platform/src/main/java/auctionplatform/worker/ServerWorker.java:135-154 | after party assignment: ids are 1..n without gaps; each member holds -1 or an id in 2..n; no two members share an id; every id but 1 is held by a member; the network lists each member at the port it reported |
| HostInvariant.SetUpPartiesConsistent | auction-platform/src/main/java/auctionplatform/worker/ServerWorker.java:135-154 | party assignment keeps the invariant |
| HostInvariant.DistributeConfigConsistent | auction-platform/src/main/java/auctionplatform/worker/ServerWorker.java:290-301 | sending the configuration, or aborting with too few parties, keeps the invariant |
| HostInvariant.SmpcSetUpEndsConsistent | auction-platform/src/main/java/auctionplatform/worker/ServerWorker.java:261-302 | the end of the port wait keeps the invariant |
| HostInvariant.SmpcRunningConsistent | auction-platform/src/main/java/auctionplatform/worker/ServerWorker.java:311-315 | entering SMPC_Running asks the first member of an order that lists every member once, by descending party id |
| HostInvariant.SmpcSetUpFinishEndsConsistent | auction-platform/src/main/java/auctionplatform/worker/ServerWorker.java:293-315 | the end of the ready wait keeps the invariant |
| HostInvariant.SmpcRunningEndsConsistent | auction-platform/src/main/java/auctionplatform/worker/ServerWorker.java:316-337 | the end of the evaluation keeps the invariant: the listener hears of the auction once |
| HostInvariant.ClosureEndsConsistent | auction-platform/src/main/java/auctionplatform/worker/ServerWorker.java:366-374 | the final shutdown keeps the invariant |
| HostInvariant.AbortConsistent | auction-platform/src/main/java/auctionplatform/worker/ServerWorker.java:441-445 | an error shutdown before Closure keeps the invariant: exactly one listener call, an error |
| HostInvariant.WinnerClientId | auction-platform/src/main/java/auctionplatform/worker/ServerWorker.java:333-350 | in a consistent host, the host's party 1 or an unknown party id gives -1; any other party id gives the client id of the single member holding it |
| HostInvariant.ConnectionTableRoundTrip | auction-platform/src/main/java/auctionplatform/worker/ServerWorker.java:191-201 | every member parses the table the host sends back into the host's network (re-hosted on an emulator), if no address contains ':' and ids and ports fit in an `int` |
| HostInvariant.EveryMemberAskedOnce | auction-platform/src/main/java/auctionplatform/worker/ServerWorker.java:103-116 | in Closure, every member was asked to start exactly once, in descending party-id order |
| ServerWorkers.ServerWorker.constructor | auction-platform/src/main/java/auctionplatform/worker/ServerWorker.java:60-63 | the new host's value is `Initial()`, which is consistent |
| ServerWorkers.ServerWorker.ClientAlreadyRegistered | auction-platform/src/main/java/auctionplatform/worker/ServerWorker.java:226-229 | true exactly when some registered record carries the client id |
| ServerWorkers.ServerWorker.AllConnectionDataReceived | auction-platform/src/main/java/auctionplatform/worker/ServerWorker.java:207-210 | true exactly when every registered record has a port |
| ServerWorkers.ServerWorker.AllClientsReady | auction-platform/src/main/java/auctionplatform/worker/ServerWorker.java:216-219 | true exactly when every registered record is ready |
| ServerWorkers.ServerWorker.FindClientIdByPartyId | auction-platform/src/main/java/auctionplatform/worker/ServerWorker.java:345-350 | returns the client id of a record that holds the party id, or -1 exactly when no record holds it |
| ServerWorkers.FillConnectionTable | auction-platform/src/main/java/auctionplatform/worker/ServerWorker.java:193-200 | the array loop writes entry i as "id:host:port" of party i + 1 for every i below n |
| ServerWorkers.ServerWorker.ConfigToStringArray | auction-platform/src/main/java/auctionplatform/worker/ServerWorker.java:191-201 | the result is the connection table of the network: N entries, entry i for party i + 1 |
| ServerWorkers.ServerWorker.SetClientPort | auction-platform/src/main/java/auctionplatform/worker/ServerWorker.java:86 | only that member's port changes |
| ServerWorkers.ServerWorker.SetClientReady | auction-platform/src/main/java/auctionplatform/worker/ServerWorker.java:96 | only that member's ready flag changes |
| ServerWorkers.ServerWorker.SetClientPartyId | auction-platform/src/main/java/auctionplatform/worker/ServerWorker.java:148 | only that member's party id changes |
| ServerWorkers.ServerWorker.ChangeToErrorState | auction-platform/src/main/java/auctionplatform/worker/ServerWorker.java:441-445 | the error is reported to the listener and the host shuts down |
| ServerWorkers.ServerWorker.Run | auction-platform/src/main/java/auctionplatform/worker/ServerWorker.java:232-238 | the new host value is `HostProtocol.Run` of the old one, and the invariant is kept |
| ServerWorkers.ServerWorker.ReceivedRegister | auction-platform/src/main/java/auctionplatform/worker/ServerWorker.java:69-80 | updates the objects as `HostProtocol.ReceivedRegister` states |
| ServerWorkers.ServerWorker.ReceivedConnectionData | auction-platform/src/main/java/auctionplatform/worker/ServerWorker.java:81-92 | updates the objects as `HostProtocol.ReceivedConnectionData` states |
| ServerWorkers.ServerWorker.ReceivedAuctionReady | auction-platform/src/main/java/auctionplatform/worker/ServerWorker.java:93-102 | updates the objects as `HostProtocol.ReceivedAuctionReady` states |
| ServerWorkers.ServerWorker.ReceivedAuctionStart | auction-platform/src/main/java/auctionplatform/worker/ServerWorker.java:103-117 | pops the deque and sends as `HostProtocol.ReceivedAuctionStart` states |
| ServerWorkers.ServerWorker.Received | auction-platform/src/main/java/auctionplatform/worker/ServerWorker.java:66-121 | dispatches as `HostProtocol.Received` states and keeps the invariant |
| ServerWorkers.ServerWorker.Disconnected | auction-platform/src/main/java/auctionplatform/worker/ServerWorker.java:124-130 | removes the record and reports the null dereference as `HostProtocol.Disconnected` states, and keeps the invariant |
| ServerWorkers.ServerWorker.RequestSmpcPorts | auction-platform/src/main/java/auctionplatform/worker/ServerWorker.java:276-280 | a `RequestConnectionData` goes to every connection of the iteration order |
| ServerWorkers.ServerWorker.RegistrationEnds | auction-platform/src/main/java/auctionplatform/worker/ServerWorker.java:245-280 | as `HostProtocol.RegistrationEnds`; the invariant is kept when the key order enumerates the registered connections |
| ServerWorkers.ServerWorker.AssignParties | auction-platform/src/main/java/auctionplatform/worker/ServerWorker.java:136-150 | the loop builds the party table of the resolved connections and stores each one's assigned id in its record |
| ServerWorkers.ServerWorker.SetUpParties | auction-platform/src/main/java/auctionplatform/worker/ServerWorker.java:135-154 | installs the network as `HostProtocol.SetUpParties` states |
| ServerWorkers.ServerWorker.SendConfig | auction-platform/src/main/java/auctionplatform/worker/ServerWorker.java:174-185 | each member of the iteration order is sent its own configuration message |
| ServerWorkers.ServerWorker.SmpcSetUpEnds | auction-platform/src/main/java/auctionplatform/worker/ServerWorker.java:261-302 | as `HostProtocol.SmpcSetUpEnds`, keeping the invariant for a shuffle of the registered connections |
| ServerWorkers.ServerWorker.SmpcSetUpFinish | auction-platform/src/main/java/auctionplatform/worker/ServerWorker.java:289-302 | as `HostProtocol.SmpcSetUpFinish` |
| ServerWorkers.ServerWorker.DistributeConfig | auction-platform/src/main/java/auctionplatform/worker/ServerWorker.java:290-301 | as `HostProtocol.DistributeConfig` |
| ServerWorkers.ServerWorker.SmpcSetUpFinishEnds | auction-platform/src/main/java/auctionplatform/worker/ServerWorker.java:293-315 | as `HostProtocol.SmpcSetUpFinishEnds`, keeping the invariant |
| ServerWorkers.ServerWorker.SetUpStartingOrder | auction-platform/src/main/java/auctionplatform/worker/ServerWorker.java:355-360 | the deque becomes the registered connections sorted by descending party id |
| ServerWorkers.ServerWorker.SmpcRunning | auction-platform/src/main/java/auctionplatform/worker/ServerWorker.java:311-315 | as `HostProtocol.SmpcRunning` |
| ServerWorkers.ServerWorker.SmpcRunningEnds | auction-platform/src/main/java/auctionplatform/worker/ServerWorker.java:316-337 | as `HostProtocol.SmpcRunningEnds`, keeping the invariant; on completion the reported client id is the one `findClientIdByPartyId` gives for the winner |
| ServerWorkers.ServerWorker.ClosureEnds | auction-platform/src/main/java/auctionplatform/worker/ServerWorker.java:366-374 | as `HostProtocol.ClosureEnds`, keeping the invariant |
| AuctionTasks.NewTask | auction-client/app/src/main/java/com/db/auctionclient/model/entities/AuctionTask.java:15-50 | a new task stores its five arguments unchanged, with final price -1, not won, phase Registration and no error message |
| AuctionTasks.AuctionTask.constructor | auction-client/app/src/main/java/com/db/auctionclient/model/entities/AuctionTask.java:43-50 | the constructed task holds exactly `NewTask`'s values |
| AuctionTasks.AuctionTask.SetCurrentBid | auction-client/app/src/main/java/com/db/auctionclient/model/entities/AuctionTask.java:25-26 | replaces the bid and leaves the other fields unchanged |
| AuctionTasks.AuctionTask.SetFinalPrice | auction-client/app/src/main/java/com/db/auctionclient/model/entities/AuctionTask.java:27-28 | replaces the final price and leaves the other fields unchanged |
| AuctionTasks.AuctionTask.SetHasWon | auction-client/app/src/main/java/com/db/auctionclient/model/entities/AuctionTask.java:29-30 | replaces the win flag and leaves the other fields unchanged |
| AuctionTasks.AuctionTask.SetLocalPhase | auction-client/app/src/main/java/com/db/auctionclient/model/entities/AuctionTask.java:31-32 | replaces the phase and leaves the other fields unchanged |
| AuctionTasks.AuctionTask.SetErrorMessage | auction-client/app/src/main/java/com/db/auctionclient/model/entities/AuctionTask.java:33-34 | sets the error message and leaves the other fields unchanged |
| MemberProtocol.Initial | auction-client/app/src/main/java/com/db/auctionclient/model/worker/ClientWorker.java:94-101 | a new worker has not run, has every latch and flag cleared and has sent and saved nothing |
| MemberProtocol.SetBid | auction-client/app/src/main/java/com/db/auctionclient/model/worker/ClientWorker.java:109-114 | in Connecting or Registration the bid changes and the task is saved; in every other state nothing changes |
| MemberProtocol.LeaveAuction | auction-client/app/src/main/java/com/db/auctionclient/model/worker/ClientWorker.java:121-126 | in Connecting or Registration the connection-data latch opens and the leave is noted; otherwise nothing changes |
| MemberProtocol.SetUpParties | auction-client/app/src/main/java/com/db/auctionclient/model/worker/ClientWorker.java:136-151 | the configuration is kept; the network becomes the own party id with the parsed table exactly when every entry parses, and stays unchanged otherwise |
| MemberProtocol.Received | auction-client/app/src/main/java/com/db/auctionclient/model/worker/ClientWorker.java:154-164 | each of the three host messages opens its own latch (a configuration only once it is read); any other message changes nothing |
| MemberProtocol.Disconnected | auction-client/app/src/main/java/com/db/auctionclient/model/worker/ClientWorker.java:167-180 | the disconnect flag is set and only the latch of the current state opens |
| MemberProtocol.Abort | auction-client/app/src/main/java/com/db/auctionclient/model/worker/ClientWorker.java:358-364 | the task becomes Abortion with the message; it is saved and reported once; the worker stops; the state and sent messages are kept |
| MemberProtocol.Shutdown | auction-client/app/src/main/java/com/db/auctionclient/model/worker/ClientWorker.java:307-311 | the worker stops and reports its task to the listener |
| MemberProtocol.ChangeToState | auction-client/app/src/main/java/com/db/auctionclient/model/worker/ClientWorker.java:317-342 | the worker enters the target state, and it stops exactly when that state is Closure |
| MemberProtocol.Closing | auction-client/app/src/main/java/com/db/auctionclient/model/worker/ClientWorker.java:348-352 | the task is marked Completion, saved and reported, and the worker stops |
| MemberProtocol.Run | auction-client/app/src/main/java/com/db/auctionclient/model/worker/ClientWorker.java:183-185 | the worker enters Connecting |
| MemberProtocol.ConnectingEnds | auction-client/app/src/main/java/com/db/auctionclient/model/worker/ClientWorker.java:193-222 | a failed connect aborts with "Connection could not be established."; otherwise the worker enters Registration, sends `Register(clientId)`, and saves the task labelled Registration |
| MemberProtocol.RegistrationEnds | auction-client/app/src/main/java/com/db/auctionclient/model/worker/ClientWorker.java:223-244 | a leave aborts with "Auction leaved." before anything else; without the request or after a disconnect the worker aborts with "RequestConnectionData timeout."; otherwise it enters SMPC_SetUp and sends its port |
| MemberProtocol.SmpcSetUpEnds | auction-client/app/src/main/java/com/db/auctionclient/model/worker/ClientWorker.java:245-263 | without the configuration or after a disconnect the worker aborts with "AuctionConfiguration timeout."; otherwise it enters SMPC_SetUpFinish and sends `AuctionReady` |
| MemberProtocol.SmpcSetUpFinishEnds | auction-client/app/src/main/java/com/db/auctionclient/model/worker/ClientWorker.java:264-288 | without the start request or after a disconnect the worker aborts with "RequestAuctionStart timeout."; otherwise it enters SMPC_Running and sends `ResponseAuctionStart` |
| MemberProtocol.SmpcRunningEnds | auction-client/app/src/main/java/com/db/auctionclient/model/worker/ClientWorker.java:289-302 | no result aborts with "Auction evaluation aborted."; a result sets the win flag (own party id equals the winner) and the final price, and leads to Closure |
| MemberInvariant.Outgoing | auction-client/app/src/main/java/com/db/auctionclient/model/worker/ClientWorker.java:222-288 | the four messages a member sends, in protocol order |
| MemberInvariant.InitialConsistent | auction-client/app/src/main/java/com/db/auctionclient/model/worker/ClientWorker.java:94-101 | a worker for a fresh task satisfies the member invariant |
| MemberInvariant.SetBidConsistent | auction-client/app/src/main/java/com/db/auctionclient/model/worker/ClientWorker.java:109-114 | `setBid` keeps the invariant |
| MemberInvariant.LeaveAuctionConsistent | auction-client/app/src/main/java/com/db/auctionclient/model/worker/ClientWorker.java:121-126 | `leaveAuction` keeps the invariant |
| MemberInvariant.ReceivedConsistent | auction-client/app/src/main/java/com/db/auctionclient/model/worker/ClientWorker.java:154-164 | every message keeps the invariant |
| MemberInvariant.DisconnectedConsistent | auction-client/app/src/main/java/com/db/auctionclient/model/worker/ClientWorker.java:167-180 | a disconnect keeps the invariant |
| MemberInvariant.AbortConsistent | auction-client/app/src/main/java/com/db/auctionclient/model/worker/ClientWorker.java:358-364 | an abort before Closure keeps the invariant: the task is reported exactly once |
| MemberInvariant.RunConsistent | auction-client/app/src/main/java/com/db/auctionclient/model/worker/ClientWorker.java:183-185 | `run` keeps the invariant |
| MemberInvariant.ConnectingEndsConsistent | auction-client/app/src/main/java/com/db/auctionclient/model/worker/ClientWorker.java:193-222 | the end of the connect attempt keeps the invariant |
| MemberInvariant.RegistrationEndsConsistent | auction-client/app/src/main/java/com/db/auctionclient/model/worker/ClientWorker.java:219-244 | the end of the connection-data wait keeps the invariant |
| MemberInvariant.SmpcSetUpEndsConsistent | auction-client/app/src/main/java/com/db/auctionclient/model/worker/ClientWorker.java:241-263 | the end of the configuration wait keeps the invariant |
| MemberInvariant.SmpcSetUpFinishEndsConsistent | auction-client/app/src/main/java/com/db/auctionclient/model/worker/ClientWorker.java:262-288 | the end of the start wait keeps the invariant |
| MemberInvariant.SmpcRunningEndsConsistent | auction-client/app/src/main/java/com/db/auctionclient/model/worker/ClientWorker.java:281-302 | a worker in SMPC_Running has a network to evaluate on, and the end of the evaluation keeps the invariant |
| MemberRuns.ReceiveHostConfiguration | auction-client/app/src/main/java/com/db/auctionclient/model/worker/ClientWorker.java:136-164 | a member that receives the host's table opens its configuration latch with exactly the host's parties (re-hosted on an emulator) as its network |
| MemberRuns.LeaveWins | auction-client/app/src/main/java/com/db/auctionclient/model/worker/ClientWorker.java:121-231 | a leave in Registration wins over a connection-data request that also arrived: the worker aborts with "Auction leaved." and sends nothing more |
| MemberRuns.Registers | auction-client/app/src/main/java/com/db/auctionclient/model/worker/ClientWorker.java:183-244 | a fresh worker that connects and is asked for its data reaches SMPC_SetUp with the task labelled Running and still consistent |
| MemberRuns.SetsUpAndStarts | auction-client/app/src/main/java/com/db/auctionclient/model/worker/ClientWorker.java:136-288 | from SMPC_SetUp, the host's configuration and start request bring the worker to SMPC_Running with the host's parties as its network |
| MemberRuns.SuccessfulRun | auction-client/app/src/main/java/com/db/auctionclient/model/worker/ClientWorker.java:183-352 | a whole successful run ends in Closure: all four messages were sent in order, the task records the win flag and final price and is labelled Completion, and it was reported once |
| ClientWorkers.ClientWorker.constructor | auction-client/app/src/main/java/com/db/auctionclient/model/worker/ClientWorker.java:94-101 | the worker's value is `Initial` of its task, and it is consistent for a fresh task |
| ClientWorkers.ClientWorker.SetBid | auction-client/app/src/main/java/com/db/auctionclient/model/worker/ClientWorker.java:109-114 | updates the worker and its task as `MemberProtocol.SetBid` states |
| ClientWorkers.ClientWorker.LeaveAuction | auction-client/app/src/main/java/com/db/auctionclient/model/worker/ClientWorker.java:121-126 | as `MemberProtocol.LeaveAuction` |
| ClientWorkers.ClientWorker.SetUpParties | auction-client/app/src/main/java/com/db/auctionclient/model/worker/ClientWorker.java:136-151 | the entry-by-entry loop gives the network `MemberProtocol.SetUpParties` states |
| ClientWorkers.ClientWorker.Received | auction-client/app/src/main/java/com/db/auctionclient/model/worker/ClientWorker.java:154-164 | as `MemberProtocol.Received` |
| ClientWorkers.ClientWorker.Disconnected | auction-client/app/src/main/java/com/db/auctionclient/model/worker/ClientWorker.java:167-180 | as `MemberProtocol.Disconnected` |
| ClientWorkers.ClientWorker.UpdateAuctionTask | auction-client/app/src/main/java/com/db/auctionclient/model/worker/ClientWorker.java:112 | the repository receives a snapshot of the task's current values |
| ClientWorkers.ClientWorker.Shutdown | auction-client/app/src/main/java/com/db/auctionclient/model/worker/ClientWorker.java:307-311 | as `MemberProtocol.Shutdown` |
| ClientWorkers.ClientWorker.ChangeToErrorState | auction-client/app/src/main/java/com/db/auctionclient/model/worker/ClientWorker.java:358-364 | as `MemberProtocol.Abort` |
| ClientWorkers.ClientWorker.Closing | auction-client/app/src/main/java/com/db/auctionclient/model/worker/ClientWorker.java:348-352 | as `MemberProtocol.Closing` |
| ClientWorkers.ClientWorker.ChangeToState | auction-client/app/src/main/java/com/db/auctionclient/model/worker/ClientWorker.java:317-342 | as `MemberProtocol.ChangeToState` |
| ClientWorkers.ClientWorker.Run | auction-client/app/src/main/java/com/db/auctionclient/model/worker/ClientWorker.java:183-185 | as `MemberProtocol.Run` |
| ClientWorkers.ClientWorker.ConnectingEnds | auction-client/app/src/main/java/com/db/auctionclient/model/worker/ClientWorker.java:193-210 | as `MemberProtocol.ConnectingEnds` |
| ClientWorkers.ClientWorker.RegistrationEnds | auction-client/app/src/main/java/com/db/auctionclient/model/worker/ClientWorker.java:219-232 | as `MemberProtocol.RegistrationEnds` |
| ClientWorkers.ClientWorker.SmpcSetUpEnds | auction-client/app/src/main/java/com/db/auctionclient/model/worker/ClientWorker.java:241-253 | as `MemberProtocol.SmpcSetUpEnds` |
| ClientWorkers.ClientWorker.SmpcSetUpFinishEnds | auction-client/app/src/main/java/com/db/auctionclient/model/worker/ClientWorker.java:262-272 | as `MemberProtocol.SmpcSetUpFinishEnds` |
| ClientWorkers.ClientWorker.SmpcRunningEnds | auction-client/app/src/main/java/com/db/auctionclient/model/worker/ClientWorker.java:281-302 | as `MemberProtocol.SmpcRunningEnds` |
| ConnectionData.ParseEntry | auction-client/app/src/main/java/com/db/auctionclient/model/worker/ClientWorker.java:140-147 | an entry reads only with at least three fields; the id and port are fields 0 and 2 parsed as `int`; the host is field 1, or "10.0.2.2" on an emulator |
| ConnectionData.ParseTable | auction-client/app/src/main/java/com/db/auctionclient/model/worker/ClientWorker.java:136-151 | every party read is stored under its own id |
| ConnectionData.ParseFormatEntry | auction-platform/src/main/java/auctionplatform/worker/ServerWorker.java:197 | one entry written by the host reads back as the same party, if its host has no ':' and its numbers fit in an `int` |
| ConnectionData.FormatEntry | auction-platform/src/main/java/auctionplatform/worker/ServerWorker.java:197 | an entry's ':'-separated fields are the id, the fields of the host name and the port; with a host name free of ':', the member's split gives back exactly the three values written |
| ConnectionData.Split | auction-client/app/src/main/java/com/db/auctionclient/model/worker/ClientWorker.java:140 | a string without ':' is its own single field; otherwise the result is the fields with the trailing empty ones dropped |
| ConnectionData.SplitJoin | auction-client/app/src/main/java/com/db/auctionclient/model/worker/ClientWorker.java:140 | no field of the split holds a ':'; joining the fields with ':' gives the input back except for the trailing separators of the dropped empty fields; an input whose fields are all dropped is all separators |
| ConnectionData.HostWithSeparator | auction-platform/src/main/java/auctionplatform/worker/ServerWorker.java:197 | a host name `a:rest` with at least one ':' does not survive the round trip: the member takes `a` as the host and parses the first group of `rest` as the port, so the entry reads only when that group is an `int`, and then with the wrong host and port |
| ConnectionData.HostGroupNotNumber | auction-client/app/src/main/java/com/db/auctionclient/model/worker/ClientWorker.java:140-143 | when the host name's second group starts with neither a digit nor a sign, as in a textual IPv6 address such as "2001:db8::1", the entry does not read at all, so the whole table fails |
| ConnectionData.ParseConnectionTable | auction-platform/src/main/java/auctionplatform/worker/ServerWorker.java:191-201 | reading the host's whole table for parties 1..n gives back exactly the host's party map, re-hosted on an emulator |
| ConnectionData.ParseTableFailsAt | auction-client/app/src/main/java/com/db/auctionclient/model/worker/ClientWorker.java:139-149 | one unreadable entry makes the whole table unreadable, whatever follows it |
| ConnectionData.JoinFields | auction-client/app/src/main/java/com/db/auctionclient/model/worker/ClientWorker.java:140 | splitting at every ':' and joining again gives the string back |
| Decimal.ParseInt | auction-client/app/src/main/java/com/db/auctionclient/model/worker/ClientWorker.java:141-143 | a parsed value always fits in an `int`; the empty string does not parse; an unsigned string parses as non-negative |
| Decimal.IntToString | auction-platform/src/main/java/auctionplatform/worker/ServerWorker.java:197 | the `%d` text is non-empty, contains no ':', and is all digits exactly for a non-negative value |
| Decimal.ParseIntToString | auction-platform/src/main/java/auctionplatform/worker/ServerWorker.java:197 | parsing the `%d` text of any `int` gives the value back |
| Decimal.ParseNegative | auction-client/app/src/main/java/com/db/auctionclient/model/worker/ClientWorker.java:141-143 | a minus sign followed by digits parses as the negative value, down to the smallest `int` |
| ClientMasters.ClientMaster.constructor | auction-client/app/src/main/java/com/db/auctionclient/model/worker/ClientMaster.java:25-29 | the pool is the configured ports pushed one by one, so the last configured port is on top; there are no workers; the registry is valid |
| ClientMasters.PushedKeepsPorts | auction-client/app/src/main/java/com/db/auctionclient/model/worker/ClientMaster.java:28 | the constructed pool holds exactly the configured ports |
| ClientMasters.ClientMaster.ClientWorkersAvailable | auction-client/app/src/main/java/com/db/auctionclient/model/worker/ClientMaster.java:84-86 | true exactly when the pool is non-empty |
| ClientMasters.ClientMaster.JoinAuction | auction-client/app/src/main/java/com/db/auctionclient/model/worker/ClientMaster.java:41-55 | joins exactly when a port is free and the auction has no worker. On success, the top port is popped and becomes the new task's port, and the auction maps to a fresh, consistent worker. On failure, neither the pool nor the table changes. The registry stays valid |
| ClientMasters.ClientMaster.NewWorker | auction-client/app/src/main/java/com/db/auctionclient/model/worker/ClientMaster.java:45-49 | the new worker has the registry's configuration and a fresh task with the given values, and it is consistent |
| ClientMasters.ClientMaster.Register | auction-client/app/src/main/java/com/db/auctionclient/model/worker/ClientMaster.java:44-51 | with the popped port as the worker's port, the pool loses its top, the auction maps to the worker, and the registry stays valid |
| ClientMasters.LedgerLend | auction-client/app/src/main/java/com/db/auctionclient/model/worker/ClientMaster.java:44-51 | lending the top port to an auction without a worker keeps every task on its own auction and the lent port, and keeps all configured ports accounted for |
| ClientMasters.ClientMaster.LeaveAuction | auction-client/app/src/main/java/com/db/auctionclient/model/worker/ClientMaster.java:61-66 | the auction's worker, if any, takes the leave command; the registry stays valid |
| ClientMasters.ClientMaster.ChangeBid | auction-client/app/src/main/java/com/db/auctionclient/model/worker/ClientMaster.java:73-78 | the auction's worker, if any, takes the new bid; the registry stays valid |
| ClientMasters.ClientMaster.OnCompleteTask | auction-client/app/src/main/java/com/db/auctionclient/model/worker/ClientMaster.java:89-92 | the auction's worker is dropped and the reported port is pushed on top; reported for a registered auction with the port its worker evaluates on, the registry stays valid |
| ClientMasters.LedgerReturn | auction-client/app/src/main/java/com/db/auctionclient/model/worker/ClientMaster.java:89-92 | dropping a registered auction and pushing back its port keeps every other task on its own auction and port, and keeps all configured ports accounted for |
| ClientMasters.ReturnKeepsPorts | auction-client/app/src/main/java/com/db/auctionclient/model/worker/ClientMaster.java:90 | taking one auction's loan back leaves every other auction holding the same port |
| ClientMasters.ReturnGivesBack | auction-client/app/src/main/java/com/db/auctionclient/model/worker/ClientMaster.java:89-92 | returning a borrower's loan takes exactly its port off the ports on loan |
| ClientMasters.ReturnKeepsOneLoanEach | auction-client/app/src/main/java/com/db/auctionclient/model/worker/ClientMaster.java:90 | after the return, the auction holds no port and every other auction still holds one |
| ClientMasters.LendThenReturn | auction-client/app/src/main/java/com/db/auctionclient/model/worker/ClientMaster.java:44-92 | lending to a new auction and taking the loan back restores the loans |
| ClientMasters.NoPortShared | auction-client/app/src/main/java/com/db/auctionclient/model/worker/ClientMaster.java:44-92 | with distinct configured ports and a valid registry, no port on loan is in the pool and no port is lent twice |
| ClientMasters.LedgerCount | auction-client/app/src/main/java/com/db/auctionclient/model/worker/ClientMaster.java:44-92 | the free ports and the registered auctions number the configured ports |
| ClientMasters.LedgerNoShare | auction-client/app/src/main/java/com/db/auctionclient/model/worker/ClientMaster.java:44-92 | with distinct configured ports, no registered auction's port is free and no two registered auctions share a port |
| ClientMasters.ClientMaster.PortCount | auction-client/app/src/main/java/com/db/auctionclient/model/worker/ClientMaster.java:84-92 | in a valid registry, the free ports plus the active workers number the configured ports, so `clientWorkersAvailable` fails exactly when every configured port has a worker |
| ClientMasters.ClientMaster.NoWorkerPortShared | auction-client/app/src/main/java/com/db/auctionclient/model/worker/ClientMaster.java:44-92 | with distinct configured ports, the port a worker evaluates on is not free, and no two workers evaluate on the same port |
| AuctionPhases.Name | auction-client/app/src/main/java/com/db/auctionclient/model/entities/AuctionPhase.java:7-19 | each phase's name is a non-empty string |
| AuctionPhases.FirstMatch | auction-client/app/src/main/java/com/db/auctionclient/model/entities/AuctionPhase.java:27-30 | the first candidate whose name matches, with no earlier candidate matching; none exactly when no candidate matches |
| AuctionPhases.FromString | auction-client/app/src/main/java/com/db/auctionclient/model/entities/AuctionPhase.java:26-31 | a phase found carries exactly the requested name |
| AuctionPhases.ValuesEnumerateAllPhases | auction-client/app/src/main/java/com/db/auctionclient/model/entities/AuctionPhase.java:6-10 | `values()` lists all four phases, each once |
| AuctionPhases.NameInjective | auction-client/app/src/main/java/com/db/auctionclient/model/entities/AuctionPhase.java:7-10 | different phases have different names |
| AuctionPhases.FromStringName | auction-client/app/src/main/java/com/db/auctionclient/model/entities/AuctionPhase.java:26-31 | looking up a phase's own name yields that phase |
| AuctionPhases.NameFromString | auction-client/app/src/main/java/com/db/auctionclient/model/entities/AuctionPhase.java:26-31 | a string that `fromString` accepts is the found phase's name |
| AuctionPhases.FromStringNone | auction-client/app/src/main/java/com/db/auctionclient/model/entities/AuctionPhase.java:30 | `fromString` gives null exactly when no phase has the name |
| AuctionPhases.FromStringUnknown | auction-client/app/src/main/java/com/db/auctionclient/model/entities/AuctionPhase.java:26-31 | "Closure", the empty string and the lower-case "registration" name no phase |
| Auctions.NewAuction | fresco-auction/src/main/java/frescoauction/auction/Auction.java:25-30 | construction succeeds exactly with a bid of at least 1 and at least two parties, and stores the arguments unchanged; a low bid is reported first, then too few parties |
| Auctions.CollectBidInputs | fresco-auction/src/main/java/frescoauction/auction/SealedFirstPriceAuction.java:37-47 | one (partyId, bid) pair per party in party order 1..N; the own pair carries the own bid; with the own slot holding the own bid, the inputs are exactly every party's supplied bid |
| Auctions.PartyInputsBids | fresco-auction/src/main/java/frescoauction/auction/SealedFirstPriceAuction.java:37-47 | the bids of the collected inputs are the supplied bids |
| Bids.TopIndex | fresco-auction/src/main/java/frescoauction/auction/SealedFirstPriceAuction.java:57-63 | the index holds the maximum bid, and every later bid is lower, so ties go to the higher party id |
| Bids.LeaderIsTop | fresco-auction/src/main/java/frescoauction/auction/SealedFirstPriceAuction.java:53-63 | after i inputs, the scan's high bid is the maximum of the first i bids and its bidder is their top index |
| Bids.SecondBidAtMostTop | fresco-auction/src/main/java/frescoauction/auction/SealedSecondPriceAuction.java:65-67 | the second price never exceeds the winning bid |
| Bids.SecondBidIsRunnerUp | fresco-auction/src/main/java/frescoauction/auction/SealedSecondPriceAuction.java:58-66 | with two or more valid bids, the second price is at least 1; it is held by some bidder other than the winner and is at least every such bid |
| Bids.SecondBidTied | fresco-auction/src/main/java/frescoauction/auction/SealedSecondPriceAuction.java:63-67 | when the top bid is tied, the second price is the top bid |
| Bids.SumBounds | fresco-auction/src/main/java/frescoauction/auction/CalcSum.java:43-49 | with valid inputs, the sum is at least the party count and at least the largest input |
| Bids.MaxOrZeroIn | fresco-auction/src/main/java/frescoauction/auction/SealedSecondPriceAuction.java:58 | the largest remaining bid is 0 (the initial value) or one of the bids |
| SealedFirstPrice.Evaluate | fresco-auction/src/main/java/frescoauction/auction/SealedFirstPriceAuction.java:49-75 | the final price is the maximum bid, and the winner is the party of the last input holding it |
| SealedFirstPrice.WinnerIsPartyId | fresco-auction/src/main/java/frescoauction/auction/SealedFirstPriceAuction.java:37-62 | on the collected inputs, the winner's party id is the top index plus one, within 1..N |
| SealedFirstPrice.TestVectorsTwoParties | fresco-auction/src/test/java/frescoauction/auction/SealedFirstPriceAuctionTest.java:72-73 | {1,42} gives (2,42) and {42,1} gives (1,42) |
| SealedFirstPrice.TestVectorsTies | fresco-auction/src/test/java/frescoauction/auction/SealedFirstPriceAuctionTest.java:76-80 | {1,2,1} gives (2,2); {42,42,42,1} gives (3,42); {41,43,42,43,1} gives (4,43) |
| SealedFirstPrice.TestVectorTenParties | fresco-auction/src/test/java/frescoauction/auction/SealedFirstPriceAuctionTest.java:85 | party 5 wins the ten-party vector and pays 50 |
| SealedSecondPrice.SecondStep | fresco-auction/src/main/java/frescoauction/auction/SealedSecondPriceAuction.java:63-66 | one scan step turns the second price of the first i bids into the second price of the first i + 1 |
| SealedSecondPrice.RunnerUpIsSecond | fresco-auction/src/main/java/frescoauction/auction/SealedSecondPriceAuction.java:58-69 | after i inputs, the scan's second-highest bid is the largest bid left once one occurrence of the top bid is removed |
| SealedSecondPrice.Evaluate | fresco-auction/src/main/java/frescoauction/auction/SealedSecondPriceAuction.java:50-81 | the winner is chosen as in the first-price auction; with valid bids the final price is the second price |
| SealedSecondPrice.TestVectorTie | fresco-auction/src/test/java/frescoauction/auction/AuctionEvaluationTest.java:61 | {1,1} gives (2,1) |
| SealedSecondPrice.TestVectorSecondWins | fresco-auction/src/test/java/frescoauction/auction/AuctionEvaluationTest.java:62 | {1,42} gives (2,1) |
| SealedSecondPrice.TestVectorThreeParties | fresco-auction/src/test/java/frescoauction/auction/AuctionEvaluationTest.java:65 | {MAX,42,1} gives (1,42) |
| CalcSums.CollectInputs | fresco-auction/src/main/java/frescoauction/auction/CalcSum.java:32-40 | one input per party in party order 1..N, the own one at the own id; with the own slot holding the own input, the inputs are exactly the supplied ones |
| CalcSums.Result | fresco-auction/src/main/java/frescoauction/auction/CalcSum.java:43-49 | no winner (-1); with valid inputs, the final price is at least the party count and at least the largest input |
| AuctionFactory.GetAuction | fresco-auction/src/main/java/frescoauction/auction/AuctionFactory.java:20-34 | each type gets its own application, with bid and configuration passed through unchanged; the constructor's validation errors reach the caller |
| AuctionFactory.Compute | fresco-auction/src/main/java/frescoauction/auction/AuctionFactory.java:20-34 | the constructed application computes the reference result of its kind, whatever the party's own id, so every party gets the same result; `CalcSum` has no winner |

## Left out

- Networking (Kryonet server and client, bind, connect, `sendToTCP`,
  `close`) is not modelled. Sends and closes are logged in sequences, and
  arrivals are events.
- Threads, executors, sleeps and `CountDownLatch` timeouts are not modelled.
  Each phase wait ends in an explicit event that sees whether the latch
  opened. Interrupts (`InterruptedException`, `ExecutionException`) count
  as an unopened latch or no result.
- Races the sequential model makes atomic are out of scope. `leaveAuction`
  opens the latch before setting the leave flag, and `joinAuction` checks
  the pool and then pops from it. The host's server starts listening
  (`kryoServer.start()`, ServerWorker.java:397) before `run` sets the
  `Registration` state (ServerWorker.java:234); a message that arrives in
  between meets a null state, and `switch (state)` (ServerWorker.java:68)
  throws. `HostProtocol.Received` requires a started state, so this window
  is not modelled.
- `Collections.shuffle` is randomness. The permutation is a parameter, and
  the invariant lemmas assume it lists each registered connection once.
- `getClientIpAddress` is a live socket lookup. It is the `ipOf` map
  parameter, where an absent connection has the empty address.
- Java hash-map and set iteration orders are parameters of the events that
  iterate.
- `findClientIdByPartyId` is exact only with the invariant. Its result is
  stated as "a record holding the party id". With the host invariant,
  `WinnerClientId` shows that at most one record holds it, so the result is
  unique.
- The engine's evaluation (`AuctionEvaluation`, `SMPC` and the FRESCO
  protocol suites) is the `result` parameter of the "evaluation ended"
  events. The auction classes are modelled in plaintext only, so field
  arithmetic and the `intValue()` truncation of opened values are not
  modelled.
- SealedSecondPrice.Evaluate: the final price is stated only for valid
  bids (all at least 1, as the `Auction` constructor guarantees). For other
  inputs the result is whatever the scan computes.
- The regular-expression semantics of `String.matches` in
  `AuctionPhase.fromString` are not modelled. The match is string equality.
- `shutdown`, `startKryoServer` and the log calls of the host only stop,
  start or print I/O. The shutdown is the `stopped` flag, and the server
  start is the `serverStarted` parameter of `Run`.
- In `joinAuction`, `auctionRepository.addAuctionTask` and the start of the
  worker's thread are I/O and are not modelled.
- The default branch of the member's `changeToState` cannot be reached from
  the six states and has no counterpart.
- ClientMasters.ClientMaster.OnCompleteTask: the registry stays valid only
  when the report is for a registered auction and carries the port its
  worker evaluates on, as a worker's own report does. A report of any other
  task is applied to the pool and the table as the Java code does, with no
  validity promise.
- Decimal.ParseInt: accepts only the ASCII digits '0'..'9'. Java's
  `Integer.parseInt` also accepts the decimal digits of other Unicode
  scripts, which this model rejects.
- Decimal.IntToString: writes ASCII digits. `String.format("%d")` writes the
  digits of the default locale, which differ in some locales.
- `AuctionTask`'s auction id, host address, host port and evaluation port
  are constants in the model. Lombok generates setters for them, but no
  modelled code calls those setters.
- The null dereference in the host's `disconnected` is modelled as a flag
  that the method returns. The exception it raises in the listener thread
  is not modelled.
- The configuration loading (`loadFromJson`), Android UI, view models, Room
  database, repositories and `Converters` are not part of this model.
