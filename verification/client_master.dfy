/**
 * The member's worker registry (auction-client ClientMaster): a pool of
 * evaluation ports and one worker per auction joined. Joining an auction lends
 * the port on top of the pool to the new worker; the worker's completion
 * report takes it off the registry and puts its port back on top.
 *
 * The registry keeps, as ghost state, the list of ports on loan and the
 * auction each went to. Its invariant ties that ledger to the workers: each
 * worker's task belongs to the auction it is registered under and holds the
 * port lent to that auction, and the pool and the loans together hold exactly
 * the configured ports. So the pool and the workers together account for
 * every configured port, and, with distinct configured ports, no two workers
 * ever evaluate on the same port and no worker's port is handed out again.
 */
module ClientMasters {
  import opened AuctionTasks
  import opened MemberProtocol
  import MemberInvariant
  import opened ClientWorkers

  /** A port lent to the worker of an auction. */
  datatype Loan = Loan(auctionId: int, port: int)

  /** The auctions that hold a port. */
  function Borrowers(loans: seq<Loan>): (ids: set<int>)
    ensures forall i :: 0 <= i < |loans| ==> loans[i].auctionId in ids
  {
    if loans == [] then {}
    else Borrowers(loans[..|loans| - 1]) + {loans[|loans| - 1].auctionId}
  }

  /** The ports on loan, with their multiplicities. */
  function LentPorts(loans: seq<Loan>): (ports: multiset<int>)
    ensures |ports| == |loans|
  {
    if loans == [] then multiset{}
    else LentPorts(loans[..|loans| - 1]) + multiset{loans[|loans| - 1].port}
  }

  /** No auction holds two ports: each loan's auction holds none of the loans before it. */
  ghost predicate OneLoanEach(loans: seq<Loan>) {
    loans != [] ==>
      && OneLoanEach(loans[..|loans| - 1])
      && loans[|loans| - 1].auctionId !in Borrowers(loans[..|loans| - 1])
  }

  /** The port lent to `id`. */
  function PortOf(loans: seq<Loan>, id: int): (port: int)
    requires id in Borrowers(loans)
    ensures exists i :: 0 <= i < |loans| && loans[i] == Loan(id, port)
  {
    var last := loans[|loans| - 1];
    if last.auctionId == id then last.port else PortOf(loans[..|loans| - 1], id)
  }

  /** The loans without the one of `id`. */
  function Return(loans: seq<Loan>, id: int): (rest: seq<Loan>)
    ensures forall i :: 0 <= i < |rest| ==> rest[i].auctionId != id
  {
    if loans == [] then []
    else
      var last := loans[|loans| - 1];
      Return(loans[..|loans| - 1], id) + (if last.auctionId == id then [] else [last])
  }

  /** The pool after pushing `ports` one by one on an empty deque: the last port on top. */
  function Pushed(ports: seq<int>): (pool: seq<int>)
    ensures |pool| == |ports|
  {
    if ports == [] then [] else [ports[|ports| - 1]] + Pushed(ports[..|ports| - 1])
  }

  // ---------------------------------------------------------------------------
  // Properties of the loan bookkeeping
  // ---------------------------------------------------------------------------

  /** Pushing reorders the configured ports and loses none. */
  lemma {:induction false} PushedKeepsPorts(ports: seq<int>)
    ensures multiset(Pushed(ports)) == multiset(ports)
  {
    if ports != [] {
      var front := ports[..|ports| - 1];
      PushedKeepsPorts(front);
      assert ports == front + [ports[|ports| - 1]];
    }
  }

  /** Popping the top port off the pool leaves the other ports in it. */
  lemma {:induction false} Pop(pool: seq<int>)
    requires pool != []
    ensures multiset(pool) == multiset{pool[0]} + multiset(pool[1..])
  {
    assert pool == [pool[0]] + pool[1..];
  }

  /** The port of a new loan joins the ports on loan, and its auction the borrowers. */
  lemma {:induction false} Lend(loans: seq<Loan>, loan: Loan)
    ensures LentPorts(loans + [loan]) == LentPorts(loans) + multiset{loan.port}
    ensures Borrowers(loans + [loan]) == Borrowers(loans) + {loan.auctionId}
    ensures OneLoanEach(loans) && loan.auctionId !in Borrowers(loans) ==> OneLoanEach(loans + [loan])
  {
    assert (loans + [loan])[..|loans|] == loans;
  }

  /** A new loan is the port of its auction and leaves the ports of the other borrowers alone. */
  lemma {:induction false} LendPorts(loans: seq<Loan>, loan: Loan)
    ensures loan.auctionId in Borrowers(loans + [loan])
    ensures PortOf(loans + [loan], loan.auctionId) == loan.port
    ensures forall id :: id in Borrowers(loans) && id != loan.auctionId ==>
              id in Borrowers(loans + [loan]) && PortOf(loans + [loan], id) == PortOf(loans, id)
  {
    Lend(loans, loan);
  }

  /** Returning the loan of a borrower gives back exactly its port. */
  lemma {:induction false} ReturnGivesBack(loans: seq<Loan>, id: int)
    requires OneLoanEach(loans) && id in Borrowers(loans)
    ensures LentPorts(loans) == LentPorts(Return(loans, id)) + multiset{PortOf(loans, id)}
  {
    var front := loans[..|loans| - 1];
    var last := loans[|loans| - 1];
    if last.auctionId == id {
      ReturnAbsent(front, id);
      assert Return(loans, id) == front + [] == front;
    } else {
      ReturnGivesBack(front, id);
      var rest := Return(front, id);
      assert Return(loans, id) == rest + [last];
      Lend(rest, last);
    }
  }

  /** Returning the loans of `id` drops it from the borrowers and keeps one loan per auction. */
  lemma {:induction false} ReturnKeepsOneLoanEach(loans: seq<Loan>, id: int)
    requires OneLoanEach(loans)
    ensures Borrowers(Return(loans, id)) == Borrowers(loans) - {id}
    ensures OneLoanEach(Return(loans, id))
  {
    ReturnBorrowers(loans, id);
    if loans != [] {
      var front := loans[..|loans| - 1];
      var last := loans[|loans| - 1];
      ReturnKeepsOneLoanEach(front, id);
      var rest := Return(front, id);
      if last.auctionId != id {
        assert Return(loans, id) == rest + [last];
        Lend(rest, last);
      } else {
        assert Return(loans, id) == rest + [] == rest;
      }
    }
  }

  /** Returning the loans of `id` drops exactly `id` from the borrowers. */
  lemma {:induction false} ReturnBorrowers(loans: seq<Loan>, id: int)
    ensures Borrowers(Return(loans, id)) == Borrowers(loans) - {id}
  {
    if loans != [] {
      var front := loans[..|loans| - 1];
      var last := loans[|loans| - 1];
      ReturnBorrowers(front, id);
      var rest := Return(front, id);
      if last.auctionId != id {
        assert Return(loans, id) == rest + [last];
        Lend(rest, last);
      } else {
        assert Return(loans, id) == rest + [] == rest;
      }
    }
  }

  /** Returning the loans of `id` leaves every other borrower with the port it was lent. */
  lemma {:induction false} ReturnKeepsPorts(loans: seq<Loan>, id: int, other: int)
    requires other in Borrowers(loans) && other != id
    ensures other in Borrowers(Return(loans, id))
    ensures PortOf(Return(loans, id), other) == PortOf(loans, other)
  {
    var front := loans[..|loans| - 1];
    var last := loans[|loans| - 1];
    var rest := Return(front, id);
    if last.auctionId == other {
      assert Return(loans, id) == rest + [last];
      LendPorts(rest, last);
    } else {
      ReturnKeepsPorts(front, id, other);
      if last.auctionId == id {
        assert Return(loans, id) == rest + [] == rest;
      } else {
        assert Return(loans, id) == rest + [last];
        LendPorts(rest, last);
      }
    }
  }

  /** With one loan per auction, there are as many borrowers as loans. */
  lemma {:induction false} BorrowersCount(loans: seq<Loan>)
    requires OneLoanEach(loans)
    ensures |Borrowers(loans)| == |loans|
  {
    if loans != [] {
      BorrowersCount(loans[..|loans| - 1]);
    }
  }

  /** Lending to an auction without a port and taking the loan back restores the loans. */
  lemma {:induction false} LendThenReturn(loans: seq<Loan>, loan: Loan)
    requires loan.auctionId !in Borrowers(loans)
    ensures Return(loans + [loan], loan.auctionId) == loans
  {
    var s := loans + [loan];
    assert s[..|s| - 1] == loans;
    ReturnAbsent(loans, loan.auctionId);
    assert Return(s, loan.auctionId) == loans + [];
  }

  /** Returning the loan of an auction that holds none changes nothing. */
  lemma {:induction false} ReturnAbsent(loans: seq<Loan>, id: int)
    requires id !in Borrowers(loans)
    ensures Return(loans, id) == loans
  {
    if loans != [] {
      var front := loans[..|loans| - 1];
      ReturnAbsent(front, id);
      assert front + [loans[|loans| - 1]] == loans;
    }
  }

  /**
   * When the configured ports are distinct and the pool and the loans hold
   * exactly them, a port on loan is not in the pool and not lent twice.
   */
  lemma {:induction false} NoPortShared(configured: seq<int>, pool: seq<int>, loans: seq<Loan>)
    requires forall i, j :: 0 <= i < j < |configured| ==> configured[i] != configured[j]
    requires multiset(pool) + LentPorts(loans) == multiset(configured)
    ensures forall i :: 0 <= i < |loans| ==> loans[i].port !in pool
    ensures forall i, j :: 0 <= i < j < |loans| ==> loans[i].port != loans[j].port
  {
    forall i | 0 <= i < |loans|
      ensures loans[i].port !in pool
    {
      var p := loans[i].port;
      DistinctOnce(configured, p);
      LentPortsHas(loans, i);
      assert multiset(configured)[p] == multiset(pool)[p] + LentPorts(loans)[p];
    }
    forall i, j | 0 <= i < j < |loans|
      ensures loans[i].port != loans[j].port
    {
      var p := loans[i].port;
      DistinctOnce(configured, p);
      if loans[j].port == p {
        LentPortsTwice(loans, i, j);
        assert false;
      }
    }
  }

  /** In a sequence of distinct values a value occurs at most once. */
  lemma {:induction false} DistinctOnce(s: seq<int>, x: int)
    requires forall i, j :: 0 <= i < j < |s| ==> s[i] != s[j]
    ensures multiset(s)[x] <= 1
  {
    if s != [] {
      var front := s[..|s| - 1];
      DistinctOnce(front, x);
      assert s == front + [s[|s| - 1]];
      if s[|s| - 1] == x {
        assert x !in front;
      }
    }
  }

  /** The port of every loan is on loan. */
  lemma {:induction false} LentPortsHas(loans: seq<Loan>, i: nat)
    requires i < |loans|
    ensures LentPorts(loans)[loans[i].port] >= 1
  {
    var front := loans[..|loans| - 1];
    if i < |loans| - 1 {
      assert front[i] == loans[i];
      LentPortsHas(front, i);
    }
  }

  /** A port lent in two loans is on loan twice. */
  lemma {:induction false} LentPortsTwice(loans: seq<Loan>, i: nat, j: nat)
    requires i < j < |loans| && loans[i].port == loans[j].port
    ensures LentPorts(loans)[loans[i].port] >= 2
  {
    var front := loans[..|loans| - 1];
    assert front[i] == loans[i];
    if j < |loans| - 1 {
      assert front[j] == loans[j];
      LentPortsTwice(front, i, j);
    } else {
      LentPortsHas(front, i);
    }
  }

  /**
   * The registry's bookkeeping: `tasks` maps each registered auction to the
   * auction and port of its worker's task. Each task is for its own auction and
   * holds the port lent to it, and the pool and the loans hold exactly the
   * configured ports.
   */
  ghost predicate Ledger(tasks: map<int, Loan>, loans: seq<Loan>, pool: seq<int>, configured: seq<int>) {
    && tasks.Keys == Borrowers(loans)
    && OneLoanEach(loans)
    && (forall id :: id in tasks ==> tasks[id] == Loan(id, PortOf(loans, id)))
    && multiset(pool) + LentPorts(loans) == multiset(configured)
  }

  /** Lending the top port of the pool to a new auction keeps the ledger. */
  lemma {:induction false} LedgerLend(tasks: map<int, Loan>, loans: seq<Loan>, pool: seq<int>, configured: seq<int>, id: int)
    requires Ledger(tasks, loans, pool, configured) && pool != [] && id !in tasks
    ensures Ledger(tasks[id := Loan(id, pool[0])], loans + [Loan(id, pool[0])], pool[1..], configured)
  {
    var loan := Loan(id, pool[0]);
    LendKeys(tasks, loans, loan);
    LendOneEach(loans, loan);
    LendTasks(tasks, loans, loan);
    LendPool(pool, loans, configured, loan);
  }

  /** The new auction joins both the registered auctions and the borrowers. */
  lemma {:induction false} LendKeys(tasks: map<int, Loan>, loans: seq<Loan>, loan: Loan)
    requires tasks.Keys == Borrowers(loans)
    ensures tasks[loan.auctionId := loan].Keys == Borrowers(loans + [loan])
  {
    Lend(loans, loan);
  }

  /** A loan to an auction holding none keeps one loan per auction. */
  lemma {:induction false} LendOneEach(loans: seq<Loan>, loan: Loan)
    requires OneLoanEach(loans) && loan.auctionId !in Borrowers(loans)
    ensures OneLoanEach(loans + [loan])
  {
    Lend(loans, loan);
  }

  /** Moving the top port of the pool onto the loans keeps every configured port accounted for. */
  lemma {:induction false} LendPool(pool: seq<int>, loans: seq<Loan>, configured: seq<int>, loan: Loan)
    requires pool != [] && loan.port == pool[0]
    requires multiset(pool) + LentPorts(loans) == multiset(configured)
    ensures multiset(pool[1..]) + LentPorts(loans + [loan]) == multiset(configured)
  {
    Pop(pool);
    Lend(loans, loan);
  }

  /** A new loan is the task entry of its auction, and every other task keeps the port lent to it. */
  lemma {:induction false} LendTasks(tasks: map<int, Loan>, loans: seq<Loan>, loan: Loan)
    requires tasks.Keys == Borrowers(loans)
    requires forall id :: id in tasks ==> tasks[id] == Loan(id, PortOf(loans, id))
    ensures forall id :: id in tasks[loan.auctionId := loan] ==>
              tasks[loan.auctionId := loan][id] == Loan(id, PortOf(loans + [loan], id))
  {
    LendPorts(loans, loan);
  }

  /** Taking back the port of a registered auction, reported with that port, keeps the ledger. */
  lemma {:induction false} LedgerReturn(tasks: map<int, Loan>, loans: seq<Loan>, pool: seq<int>, configured: seq<int>, id: int, port: int)
    requires Ledger(tasks, loans, pool, configured) && id in tasks && tasks[id].port == port
    ensures Ledger(tasks - {id}, Return(loans, id), [port] + pool, configured)
  {
    ReturnGivesBack(loans, id);
    ReturnKeepsOneLoanEach(loans, id);
    forall other | other in tasks - {id}
      ensures (tasks - {id})[other] == Loan(other, PortOf(Return(loans, id), other))
    {
      ReturnKeepsPorts(loans, id, other);
    }
    assert multiset([port] + pool) == multiset{port} + multiset(pool);
  }

  /** Under the ledger, the free ports and the registered auctions number the configured ports. */
  lemma {:induction false} LedgerCount(tasks: map<int, Loan>, loans: seq<Loan>, pool: seq<int>, configured: seq<int>)
    requires Ledger(tasks, loans, pool, configured)
    ensures |pool| + |tasks| == |configured|
  {
    BorrowersCount(loans);
    assert |tasks| == |tasks.Keys| == |loans|;
    assert |multiset(pool) + LentPorts(loans)| == |pool| + |loans|;
    assert |multiset(configured)| == |configured|;
  }

  /**
   * Under the ledger with distinct configured ports, no registered auction's
   * port is free and no two registered auctions share a port.
   */
  lemma {:induction false} LedgerNoShare(tasks: map<int, Loan>, loans: seq<Loan>, pool: seq<int>, configured: seq<int>)
    requires Ledger(tasks, loans, pool, configured)
    requires forall i, j :: 0 <= i < j < |configured| ==> configured[i] != configured[j]
    ensures forall id :: id in tasks ==> tasks[id].port !in pool
    ensures forall id, id' :: id in tasks && id' in tasks && id != id' ==> tasks[id].port != tasks[id'].port
  {
    NoPortShared(configured, pool, loans);
    forall id | id in tasks
      ensures tasks[id].port !in pool
    {
      var i :| 0 <= i < |loans| && loans[i] == Loan(id, PortOf(loans, id));
    }
    forall id, id' | id in tasks && id' in tasks && id != id'
      ensures tasks[id].port != tasks[id'].port
    {
      var i :| 0 <= i < |loans| && loans[i] == Loan(id, PortOf(loans, id));
      var j :| 0 <= j < |loans| && loans[j] == Loan(id', PortOf(loans, id'));
      assert i != j;
    }
  }

  class ClientMaster {
    const config: ClientConfiguration
    var frescoPortPool: seq<int>
    var workers: map<int, ClientWorker>
    ghost var loans: seq<Loan>

    /** The auction and the port of each registered worker's task, as a loan. */
    ghost function TaskLoans(): (tasks: map<int, Loan>)
      reads this
      ensures tasks.Keys == workers.Keys
      ensures forall id :: id in workers ==>
                tasks[id] == Loan(workers[id].task.auctionId, workers[id].task.smpcPort)
    {
      map id | id in workers :: Loan(workers[id].task.auctionId, workers[id].task.smpcPort)
    }

    /**
     * Every worker holds one port: its task is for the auction it is registered
     * under and evaluates on the port lent to that auction; the pool and the
     * loans together hold exactly the configured ports.
     */
    ghost predicate Valid()
      reads this
    {
      Ledger(TaskLoans(), loans, frescoPortPool, config.frescoPortPool)
    }

    /** The free ports and the active workers together number the configured ports. */
    lemma {:induction false} PortCount()
      requires Valid()
      ensures |frescoPortPool| + |workers| == |config.frescoPortPool|
    {
      LedgerCount(TaskLoans(), loans, frescoPortPool, config.frescoPortPool);
    }

    /**
     * With distinct configured ports, the port a worker evaluates on is not
     * free in the pool, and no two workers evaluate on the same port.
     */
    lemma {:induction false} NoWorkerPortShared()
      requires Valid()
      requires forall i, j :: 0 <= i < j < |config.frescoPortPool| ==> config.frescoPortPool[i] != config.frescoPortPool[j]
      ensures forall id :: id in workers ==> workers[id].task.smpcPort !in frescoPortPool
      ensures forall id, id' :: id in workers && id' in workers && id != id' ==>
                workers[id].task.smpcPort != workers[id'].task.smpcPort
    {
      LedgerNoShare(TaskLoans(), loans, frescoPortPool, config.frescoPortPool);
    }

    /** A registry with no workers, each configured port pushed on the pool in turn. */
    constructor (config: ClientConfiguration)
      ensures this.config == config
      ensures frescoPortPool == Pushed(config.frescoPortPool) && workers == map[]
      ensures Valid()
    {
      this.config := config;
      frescoPortPool := [];
      workers := map[];
      loans := [];
      new;
      var i := 0;
      while i < |config.frescoPortPool|
        invariant 0 <= i <= |config.frescoPortPool|
        invariant frescoPortPool == Pushed(config.frescoPortPool[..i])
        invariant workers == map[] && loans == []
      {
        assert config.frescoPortPool[..i + 1][..i] == config.frescoPortPool[..i];
        frescoPortPool := [config.frescoPortPool[i]] + frescoPortPool;
        i := i + 1;
      }
      assert config.frescoPortPool[..i] == config.frescoPortPool;
      PushedKeepsPorts(config.frescoPortPool);
    }

    /** `clientWorkersAvailable`: a port is free. */
    function ClientWorkersAvailable(): (available: bool)
      reads this
      ensures available <==> frescoPortPool != []
    {
      |frescoPortPool| > 0
    }

    /**
     * `joinAuction`: with a free port and no worker for the auction yet, lend
     * the top port to a new worker for a new task; otherwise change nothing.
     */
    method JoinAuction(auctionId: int, hostIp: string, hostPort: int, bid: int) returns (joined: bool)
      requires Valid()
      modifies this
      ensures Valid()
      ensures joined <==> old(frescoPortPool) != [] && auctionId !in old(workers)
      ensures !joined ==> frescoPortPool == old(frescoPortPool) && workers == old(workers) && loans == old(loans)
      ensures joined ==>
        && frescoPortPool == old(frescoPortPool)[1..]
        && auctionId in workers && workers == old(workers)[auctionId := workers[auctionId]]
        && fresh(workers[auctionId]) && workers[auctionId].clientConfig == config
        && workers[auctionId].View() == Initial(NewTask(auctionId, hostIp, hostPort, old(frescoPortPool)[0], bid))
        && MemberInvariant.Consistent(workers[auctionId].View(), config)
        && loans == old(loans) + [Loan(auctionId, old(frescoPortPool)[0])]
    {
      joined := false;
      if ClientWorkersAvailable() && auctionId !in workers {
        var smpcPort := frescoPortPool[0];
        var worker := NewWorker(auctionId, hostIp, hostPort, smpcPort, bid);
        Register(worker);
        joined := true;
      }
    }

    /** Lend the top port to `worker`, registered under its task's auction. */
    method Register(worker: ClientWorker)
      requires Valid() && frescoPortPool != [] && worker.task.auctionId !in workers
      requires worker.task.smpcPort == frescoPortPool[0]
      modifies this
      ensures Valid()
      ensures frescoPortPool == old(frescoPortPool)[1..]
      ensures workers == old(workers)[worker.task.auctionId := worker]
      ensures loans == old(loans) + [Loan(worker.task.auctionId, worker.task.smpcPort)]
    {
      var id := worker.task.auctionId;
      ghost var tasks := TaskLoans();
      LedgerLend(tasks, loans, frescoPortPool, config.frescoPortPool, id);
      frescoPortPool := frescoPortPool[1..];
      workers := workers[id := worker];
      loans := loans + [Loan(id, worker.task.smpcPort)];
      assert TaskLoans() == tasks[id := Loan(id, worker.task.smpcPort)];
    }

    /** A worker, with the registry's configuration, for a new task. */
    method NewWorker(auctionId: int, hostIp: string, hostPort: int, smpcPort: int, bid: int) returns (worker: ClientWorker)
      ensures fresh(worker) && fresh(worker.task) && worker.clientConfig == config
      ensures worker.task.auctionId == auctionId && worker.task.smpcPort == smpcPort
      ensures worker.View() == Initial(NewTask(auctionId, hostIp, hostPort, smpcPort, bid))
      ensures MemberInvariant.Consistent(worker.View(), config)
    {
      var task := new AuctionTask(auctionId, hostIp, hostPort, smpcPort, bid);
      worker := new ClientWorker(config, task);
    }

    /** `leaveAuction`: forward the command to the auction's worker, if there is one. */
    method LeaveAuction(auctionId: int)
      modifies if auctionId in workers then {workers[auctionId]} else {}
      ensures auctionId in workers ==>
                workers[auctionId].View() == MemberProtocol.LeaveAuction(old(workers[auctionId].View()))
      ensures old(Valid()) ==> Valid()
    {
      if auctionId in workers {
        var worker := workers[auctionId];
        worker.LeaveAuction();
      }
    }

    /** `changeBid`: forward the new bid to the auction's worker, if there is one. */
    method ChangeBid(auctionId: int, bid: int)
      modifies if auctionId in workers then {workers[auctionId], workers[auctionId].task} else {}
      ensures auctionId in workers ==>
                workers[auctionId].View() == MemberProtocol.SetBid(old(workers[auctionId].View()), bid)
      ensures old(Valid()) ==> Valid()
    {
      if auctionId in workers {
        var worker := workers[auctionId];
        worker.SetBid(bid);
      }
    }

    /**
     * `onCompleteTask`: drop the task's worker and push its port back on top.
     * Reported for a registered auction with the port its worker evaluates on,
     * the registry stays valid.
     */
    method OnCompleteTask(task: TaskRecord)
      modifies this
      ensures workers == old(workers) - {task.auctionId}
      ensures frescoPortPool == [task.smpcPort] + old(frescoPortPool)
      ensures loans == Return(old(loans), task.auctionId)
      ensures old(Valid()) && task.auctionId in old(workers) && old(workers[task.auctionId].task.smpcPort) == task.smpcPort
              ==> Valid()
    {
      ghost var tasks := TaskLoans();
      if Valid() && task.auctionId in workers && workers[task.auctionId].task.smpcPort == task.smpcPort {
        LedgerReturn(tasks, loans, frescoPortPool, config.frescoPortPool, task.auctionId, task.smpcPort);
      }
      workers := workers - {task.auctionId};
      frescoPortPool := [task.smpcPort] + frescoPortPool;
      loans := Return(loans, task.auctionId);
      assert TaskLoans() == tasks - {task.auctionId};
    }
  }
}
