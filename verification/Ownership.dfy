/** Ownership of tasks over every run of the pipeline: every slab task is in exactly one place, is
    lent to one reactor at a time, goes back to the reactor that leased it, and is returned exactly
    once; the aborts in `task_pool_free` are unreachable. */
module Ownership {
  import opened Tally
  import opened TaskSlab
  import opened WorkQueue
  import opened Pipeline

  // ---------- where tasks are ----------

  function HeldByPhase(phase: Phase): multiset<Ticket> {
    match phase
    case Leased(task) => multiset{task}
    case Draining(batch) => multiset(batch)
    case Freeing(task, rest) => multiset{task} + multiset(rest)
    case Marked(task, rest) => multiset{task} + multiset(rest)
    case _ => multiset{}
  }

  function HeldByReactor(reactor: Reactor): multiset<Ticket> {
    HeldByPhase(reactor.phase) + multiset(reactor.completed)
  }

  function HeldByWorker(worker: Worker): multiset<Ticket> {
    if worker.Running? then multiset{worker.task} else multiset{}
  }

  function HeldByPool(pool: Pool): multiset<Ticket> {
    multiset(pool.queue) + Sum(HeldByWorker, pool.workers)
  }

  /** Every task that is out of the allocator, once per place that holds it. */
  function Out(s: State): multiset<Ticket> {
    Sum(HeldByReactor, s.reactors) + Sum(HeldByPool, s.pools)
  }

  function CacheOf(reactor: Reactor): multiset<nat> {
    multiset(reactor.cache)
  }

  /** Every task inside the allocator, once per stack or cache slot that holds it. */
  function InSlab(s: State): multiset<nat> {
    multiset(s.stack) + Sum(CacheOf, s.reactors)
  }

  /** In how many places outside the allocator task `id` is. */
  function Copies(out: multiset<Ticket>, id: nat, reactors: nat): nat {
    if reactors == 0 then 0 else out[Ticket(id, reactors - 1)] + Copies(out, id, reactors - 1)
  }

  /** In how many places task `id` is: stack, caches, reactors' hands, work queues, workers' hands,
      completion queues, drained batches. */
  function Places(c: Config, s: State, id: nat): nat {
    InSlab(s)[id] + Copies(Out(s), id, c.reactors)
  }

  // ---------- the ledger ----------

  /** The tasks on loan after a history of leases and returns. */
  function OnLoan(log: seq<Event>): multiset<Ticket> {
    if log == [] then multiset{}
    else
      var before := OnLoan(log[..|log| - 1]);
      match log[|log| - 1]
      case Lent(task) => before + multiset{task}
      case Returned(task) => before - multiset{task}
  }

  ghost predicate Lendable(loans: multiset<Ticket>, id: nat) {
    forall r :: Ticket(id, r) !in loans
  }

  /** Every lease is of a task nobody has, every return is of a task on loan to that reactor. */
  ghost predicate Sound(log: seq<Event>) {
    log == [] ||
    var last := |log| - 1;
    && Sound(log[..last])
    && match log[last]
       case Lent(task) => Lendable(OnLoan(log[..last]), task.id)
       case Returned(task) => task in OnLoan(log[..last])
  }

  // ---------- invariants ----------

  predicate Shape(c: Config, s: State) {
    && |s.reactors| == c.reactors
    && |s.pools| == 2
    && |s.pools[FAST].workers| == c.fastWorkers
    && |s.pools[SLOW].workers| == c.slowWorkers
    && forall r :: 0 <= r < c.reactors ==> |s.reactors[r].cache| <= CACHE_SIZE
  }

  predicate AllHomed(r: nat, tasks: seq<Ticket>) {
    forall i :: 0 <= i < |tasks| ==> tasks[i].rid == r
  }

  predicate HomedPhase(r: nat, phase: Phase) {
    match phase
    case Leased(task) => task.rid == r
    case Draining(batch) => AllHomed(r, batch)
    case Freeing(task, rest) => task.rid == r && AllHomed(r, rest)
    case Marked(task, rest) => task.rid == r && AllHomed(r, rest)
    case _ => true
  }

  /** A task held by reactor r, or completed for it, was leased by r. */
  predicate HomedReactor(r: nat, reactor: Reactor) {
    HomedPhase(r, reactor.phase) && AllHomed(r, reactor.completed)
  }

  /** A task in a pool was leased by an existing reactor. */
  predicate HomedPool(reactors: nat, pool: Pool) {
    && (forall i :: 0 <= i < |pool.queue| ==> pool.queue[i].rid < reactors)
    && (forall w :: 0 <= w < |pool.workers| && pool.workers[w].Running? ==> pool.workers[w].task.rid < reactors)
    && (forall w :: 0 <= w < |pool.workers| && pool.workers[w].Notifying? ==> pool.workers[w].rid < reactors)
  }

  predicate Homed(c: Config, s: State) {
    && (forall r :: 0 <= r < |s.reactors| ==> HomedReactor(r, s.reactors[r]))
    && (forall k :: 0 <= k < |s.pools| ==> HomedPool(c.reactors, s.pools[k]))
  }

  /** How one step moves tasks: not at all, one task out of the allocator, or one task back in. */
  ghost predicate Moves(s: State, s': State) {
    || Stays(s, s')
    || (exists t :: Lends(s, s', t))
    || (exists t :: Returns(s, s', t))
  }

  predicate Stays(s: State, s': State) {
    Out(s') == Out(s) && InSlab(s') == InSlab(s) && s'.log == s.log
  }

  ghost predicate Lends(s: State, s': State, t: Ticket) {
    && t.rid < |s.reactors|
    && Out(s') == Out(s) + multiset{t}
    && InSlab(s) == InSlab(s') + multiset{t.id}
    && s'.log == s.log + [Lent(t)]
  }

  ghost predicate Returns(s: State, s': State, t: Ticket) {
    && t in Out(s)
    && Out(s) == Out(s') + multiset{t}
    && InSlab(s') == InSlab(s) + multiset{t.id}
    && s'.log == s.log + [Returned(t)]
  }

  // ---------- replacing one component ----------

  lemma ReactorSame(s: State, r: nat, reactor: Reactor)
    requires r < |s.reactors|
    requires HeldByReactor(reactor) == HeldByReactor(s.reactors[r]) && reactor.cache == s.reactors[r].cache
    ensures Sum(HeldByReactor, s.reactors[r := reactor]) == Sum(HeldByReactor, s.reactors)
    ensures Sum(CacheOf, s.reactors[r := reactor]) == Sum(CacheOf, s.reactors)
  {
    SumSame(HeldByReactor, s.reactors, r, reactor);
    SumSame(CacheOf, s.reactors, r, reactor);
  }

  lemma PhaseChange(s: State, r: nat, phase: Phase)
    requires r < |s.reactors|
    requires HeldByPhase(phase) == HeldByPhase(s.reactors[r].phase)
    ensures Out(SetPhase(s, r, phase)) == Out(s) && InSlab(SetPhase(s, r, phase)) == InSlab(s)
  {
    ReactorSame(s, r, s.reactors[r].(phase := phase));
  }

  lemma WorkerChange(s: State, k: nat, w: nat, worker: Worker)
    requires AtWorker(s, k, w)
    requires HeldByWorker(worker) == HeldByWorker(s.pools[k].workers[w])
    ensures Sum(HeldByPool, SetWorker(s, k, w, worker).pools) == Sum(HeldByPool, s.pools)
  {
    var pool := s.pools[k];
    SumSame(HeldByWorker, pool.workers, w, worker);
    SumSame(HeldByPool, s.pools, k, pool.(workers := pool.workers[w := worker]));
  }

  lemma {:induction false} WakeAllHolds(workers: seq<Worker>)
    ensures Sum(HeldByWorker, WakeAll(workers)) == Sum(HeldByWorker, workers)
  {
    if workers != [] {
      assert WakeAll(workers)[1..] == WakeAll(workers[1..]);
      WakeAllHolds(workers[1..]);
    }
  }

  // ---------- each step moves tasks as it should ----------

  lemma LeaseMoves(c: Config, s: State, r: nat)
    requires Shape(c, s) && Enabled(c, s, LeaseTask(r))
    ensures DoLease(s, r) == s || Lends(s, DoLease(s, r), DoLease(s, r).reactors[r].phase.task)
  {
    var s' := DoLease(s, r);
    var shelf := Shelf(s.stack, s.reactors[r].cache, s.marked);
    var (after, lease) := Alloc(shelf);
    AllocConserves(shelf);
    if lease.Lease? {
      LendsOne(s, r, after, lease.id);
    } else {
      assert s' == s;
    }
  }

  lemma LendsOne(s: State, r: nat, after: Shelf, id: nat)
    requires r < |s.reactors| && s.reactors[r].phase.Idle?
    requires Alloc(Shelf(s.stack, s.reactors[r].cache, s.marked)) == (after, Lease(id))
    requires Free(after) + multiset{id} == multiset(s.stack) + multiset(s.reactors[r].cache)
    ensures Lends(s, DoLease(s, r), Ticket(id, r))
  {
    var t := Ticket(id, r);
    var reactor := s.reactors[r].(cache := after.cache, phase := Leased(t));
    SumGain(HeldByReactor, s.reactors, r, reactor, multiset{t});
    Swap(Sum(HeldByReactor, s.reactors), multiset{t}, Sum(HeldByPool, s.pools));
    SumUpdate(CacheOf, s.reactors, r, reactor);
    Rebalance(multiset(after.stack), multiset(after.cache), multiset{id}, multiset(s.stack), multiset(s.reactors[r].cache),
              Sum(CacheOf, s.reactors), Sum(CacheOf, s.reactors[r := reactor]));
  }

  lemma Swap<T>(a: multiset<T>, d: multiset<T>, b: multiset<T>)
    ensures (a + d) + b == (a + b) + d
  {
  }

  /** If stack and cache together lose d, and the sum over all caches changes with this cache, then
      stack and all caches together lose d. */
  lemma Rebalance(stack': multiset<nat>, cache': multiset<nat>, d: multiset<nat>, stack: multiset<nat>, cache: multiset<nat>,
                  sum: multiset<nat>, sum': multiset<nat>)
    requires (stack' + cache') + d == stack + cache
    requires sum' + cache == sum + cache'
    ensures stack + sum == (stack' + sum') + d
  {
    forall t ensures (stack + sum)[t] == ((stack' + sum') + d)[t] {
      assert ((stack' + cache') + d)[t] == (stack + cache)[t];
      assert (sum' + cache)[t] == (sum + cache')[t];
    }
  }

  lemma PoolOffered(pool: Pool, task: Ticket)
    ensures HeldByPool(pool.(queue := pool.queue + [task], accepted := pool.accepted + [task])) == HeldByPool(pool) + multiset{task}
  {
  }

  lemma PoolPopped(pool: Pool, w: nat)
    requires w < |pool.workers| && !pool.workers[w].Running? && pool.queue != []
    ensures HeldByPool(pool.(queue := pool.queue[1..], popped := pool.popped + [pool.queue[0]],
                             workers := pool.workers[w := Running(pool.queue[0])])) == HeldByPool(pool)
  {
    var task, rest := pool.queue[0], pool.queue[1..];
    assert pool.queue == [task] + rest;
    SumGain(HeldByWorker, pool.workers, w, Running(task), multiset{task});
    Regroup(multiset(rest), Sum(HeldByWorker, pool.workers), multiset{task});
  }

  lemma PoolReleased(pool: Pool, w: nat, after: Worker)
    requires w < |pool.workers| && pool.workers[w].Running? && !after.Running?
    ensures HeldByPool(pool) == HeldByPool(pool.(workers := pool.workers[w := after])) + multiset{pool.workers[w].task}
    ensures pool.workers[w].task in HeldByPool(pool)
  {
    SumLoss(HeldByWorker, pool.workers, w, after, multiset{pool.workers[w].task});
  }

  lemma AcceptMoves(s: State, r: nat, k: nat)
    requires r < |s.reactors| && k < |s.pools| && s.reactors[r].phase.Leased?
    ensures
      var task, pool := s.reactors[r].phase.task, s.pools[k];
      Stays(s, s.(pools := s.pools[k := pool.(queue := pool.queue + [task], accepted := pool.accepted + [task])],
                  reactors := s.reactors[r := s.reactors[r].(phase := SignalDue(k))]))
  {
    var task, pool := s.reactors[r].phase.task, s.pools[k];
    var pool' := pool.(queue := pool.queue + [task], accepted := pool.accepted + [task]);
    var reactor' := s.reactors[r].(phase := SignalDue(k));
    PoolOffered(pool, task);
    SumGain(HeldByPool, s.pools, k, pool', multiset{task});
    SumLoss(HeldByReactor, s.reactors, r, reactor', multiset{task});
    SumSame(CacheOf, s.reactors, r, reactor');
    Regroup(Sum(HeldByReactor, s.reactors[r := reactor']), Sum(HeldByPool, s.pools), multiset{task});
  }

  lemma OfferMoves(c: Config, s: State, r: nat, k: nat)
    requires Enabled(c, s, OfferTask(r, k))
    ensures Stays(s, DoOffer(c, s, r, k))
  {
    hide Sum, HeldByReactor, HeldByPool, CacheOf;
    AcceptMoves(s, r, k);
    PhaseChange(s, r, Freeing(s.reactors[r].phase.task, []));
  }

  lemma CheckMoves(c: Config, s: State, k: nat, w: nat)
    requires Shape(c, s) && Enabled(c, s, CheckQueue(k, w))
    ensures Stays(s, DoCheck(s, k, w))
  {
    var pool := s.pools[k];
    if pool.queue == [] {
      WorkerChange(s, k, w, if pool.shutdown then Exited else Asleep);
    } else {
      PoolPopped(pool, w);
      SumSame(HeldByPool, s.pools, k, DoCheck(s, k, w).pools[k]);
    }
  }

  lemma CompletedHolds(reactor: Reactor, task: Ticket)
    ensures
      var after := reactor.(completed := reactor.completed + [task], notified := reactor.notified + [task]);
      HeldByReactor(after) == HeldByReactor(reactor) + multiset{task}
  {
    hide HeldByPhase;
  }

  lemma NotifyDelivers(s: State, k: nat, w: nat)
    requires AtWorker(s, k, w) && s.pools[k].workers[w].Running? && s.pools[k].workers[w].task.rid < |s.reactors|
    ensures Stays(s, DoNotify(s, k, w))
  {
    hide Sum, HeldByReactor, HeldByPool;
    var task := s.pools[k].workers[w].task;
    var s' := DoNotify(s, k, w);
    PoolReleased(s.pools[k], w, s'.pools[k].workers[w]);
    CompletedHolds(s.reactors[task.rid], task);
    SumLoss(HeldByPool, s.pools, k, s'.pools[k], multiset{task});
    SumGain(HeldByReactor, s.reactors, task.rid, s'.reactors[task.rid], multiset{task});
    SumSame(CacheOf, s.reactors, task.rid, s'.reactors[task.rid]);
    Regroup(Sum(HeldByReactor, s.reactors), Sum(HeldByPool, s'.pools), multiset{task});
  }

  lemma NotifyMoves(c: Config, s: State, k: nat, w: nat)
    requires Shape(c, s) && Homed(c, s) && Enabled(c, s, NotifyDone(k, w))
    ensures s.pools[k].workers[w].task.rid < c.reactors
    ensures Stays(s, DoNotify(s, k, w))
  {
    hide DoNotify, Stays;
    assert HomedPool(c.reactors, s.pools[k]);
    NotifyDelivers(s, k, w);
  }

  lemma DepositMoves(c: Config, s: State, r: nat)
    requires Shape(c, s) && Enabled(c, s, DepositTask(r)) && !DoDeposit(c, s, r).aborted
    ensures Returns(s, DoDeposit(c, s, r), s.reactors[r].phase.task)
  {
    hide Sum, HeldByReactor, HeldByPool, Put;
    var reactor := s.reactors[r];
    var t := reactor.phase.task;
    var shelf := Shelf(s.stack, reactor.cache, s.marked);
    var (after, outcome) := Put(shelf, c.slab, t.id);
    PutConserves(shelf, c.slab, t.id);
    var reactor' := reactor.(cache := after.cache, phase := Draining(reactor.phase.rest));
    DepositedHolds(reactor, after.cache);
    DepositSums(s, r, reactor', t);
    SumUpdate(CacheOf, s.reactors, r, reactor');
    Rebalance(multiset(s.stack), multiset(reactor.cache), multiset{t.id}, multiset(after.stack), multiset(after.cache),
              Sum(CacheOf, s.reactors[r := reactor']), Sum(CacheOf, s.reactors));
  }

  lemma DepositedHolds(reactor: Reactor, cache: seq<nat>)
    requires reactor.phase.Marked?
    ensures HeldByReactor(reactor) ==
      HeldByReactor(reactor.(cache := cache, phase := Draining(reactor.phase.rest))) + multiset{reactor.phase.task}
  {
  }

  lemma DepositSums(s: State, r: nat, reactor': Reactor, t: Ticket)
    requires r < |s.reactors| && HeldByReactor(s.reactors[r]) == HeldByReactor(reactor') + multiset{t}
    ensures t in Out(s)
    ensures Out(s) == Out(s.(reactors := s.reactors[r := reactor'])) + multiset{t}
  {
    SumLoss(HeldByReactor, s.reactors, r, reactor', multiset{t});
    Swap(Sum(HeldByReactor, s.reactors[r := reactor']), multiset{t}, Sum(HeldByPool, s.pools));
  }

  lemma ReadMoves(c: Config, s: State, r: nat)
    requires Enabled(c, s, ReadEvent(r))
    ensures Stays(s, Apply(c, s, ReadEvent(r)))
  {
    ReactorSame(s, r, s.reactors[r].(phase := Reading, eventfd := 0));
  }

  lemma TakeMoves(s: State, r: nat)
    requires r < |s.reactors| && s.reactors[r].phase.Reading?
    ensures Stays(s, DoTake(s, r))
  {
    ReactorSame(s, r, DoTake(s, r).reactors[r]);
  }

  lemma ProcessMoves(s: State, r: nat)
    requires r < |s.reactors| && s.reactors[r].phase.Draining?
    ensures Stays(s, DoProcess(s, r))
  {
    hide Sum;
    NextOfBatch(s.reactors[r].phase.batch);
    ReactorSame(s, r, DoProcess(s, r).reactors[r]);
  }

  lemma NextOfBatch(batch: seq<Ticket>)
    ensures batch == [] ==> HeldByPhase(Draining(batch)) == HeldByPhase(Idle)
    ensures batch != [] ==> HeldByPhase(Draining(batch)) == HeldByPhase(Freeing(batch[0], batch[1..]))
  {
    if batch != [] {
      assert batch == [batch[0]] + batch[1..];
    }
  }

  lemma MarkMoves(s: State, r: nat)
    requires r < |s.reactors| && s.reactors[r].phase.Freeing?
    ensures Stays(s, DoMark(s, r))
  {
    PhaseChange(s, r, Marked(s.reactors[r].phase.task, s.reactors[r].phase.rest));
  }

  lemma SignalMoves(c: Config, s: State, r: nat, w: nat)
    requires Shape(c, s) && Enabled(c, s, SignalPool(r, w))
    ensures Stays(s, DoSignal(c, s, r, w))
  {
    PhaseChange(s, r, Idle);
    var k := s.reactors[r].phase.pool;
    if AnyAsleep(s.pools[k].workers) {
      WorkerChange(s, k, w, Woken);
    }
  }

  lemma WriteMoves(c: Config, s: State, k: nat, w: nat)
    requires Shape(c, s) && Enabled(c, s, WriteEvent(k, w))
    ensures Stays(s, DoWrite(s, k, w))
  {
    var rid := s.pools[k].workers[w].rid;
    WorkerChange(s, k, w, Ready);
    ReactorSame(s, rid, DoWrite(s, k, w).reactors[rid]);
  }

  lemma MainMoves(c: Config, s: State, step: Step)
    requires Shape(c, s) && Enabled(c, s, step)
    requires step.RaiseShutdown? || step.BroadcastShutdown? || step.JoinWorkers? || step.PollReactor?
    ensures Stays(s, Apply(c, s, step))
  {
    hide Sum, HeldByReactor, HeldByPool, CacheOf;
    if step.RaiseShutdown? {
      RaiseMoves(c, s);
    } else if step.BroadcastShutdown? {
      BroadcastMoves(c, s);
    }
  }

  lemma RaiseMoves(c: Config, s: State)
    requires Shape(c, s) && Enabled(c, s, RaiseShutdown)
    ensures Stays(s, Apply(c, s, RaiseShutdown))
  {
    hide Sum;
    var k := if s.main.Serving? then FAST else SLOW;
    SumSame(HeldByPool, s.pools, k, s.pools[k].(shutdown := true));
  }

  lemma BroadcastMoves(c: Config, s: State)
    requires Shape(c, s) && Enabled(c, s, BroadcastShutdown)
    ensures Stays(s, Apply(c, s, BroadcastShutdown))
  {
    hide Sum;
    var pool := s.pools[s.main.pool];
    WakeAllHolds(pool.workers);
    SumSame(HeldByPool, s.pools, s.main.pool, pool.(workers := WakeAll(pool.workers)));
  }

  lemma PhaseStays(s: State, r: nat, phase: Phase)
    requires r < |s.reactors| && HeldByPhase(phase) == HeldByPhase(s.reactors[r].phase)
    ensures Stays(s, SetPhase(s, r, phase))
  {
    hide Sum, HeldByPhase;
    PhaseChange(s, r, phase);
  }

  lemma WakeMoves(s: State, k: nat, w: nat)
    requires AtWorker(s, k, w) && s.pools[k].workers[w].Asleep?
    ensures Stays(s, SetWorker(s, k, w, Woken))
  {
    hide Sum;
    WorkerChange(s, k, w, Woken);
  }

  lemma StepStays(c: Config, s: State, step: Step)
    requires Shape(c, s) && Homed(c, s) && Enabled(c, s, step)
    requires !step.LeaseTask? && !step.DepositTask?
    ensures Stays(s, Apply(c, s, step))
  {
    hide Stays, Homed, SetPhase, SetWorker;
    hide DoOffer, DoSignal, DoCheck, DoNotify, DoWrite, DoTake, DoProcess, DoMark, DoPoll;
    match step {
      case GiveUp(r) => PhaseStays(s, r, Freeing(s.reactors[r].phase.task, []));
      case OfferTask(r, k) => OfferMoves(c, s, r, k);
      case SignalPool(r, w) => SignalMoves(c, s, r, w);
      case WakeSpuriously(k, w) => WakeMoves(s, k, w);
      case CheckQueue(k, w) => CheckMoves(c, s, k, w);
      case NotifyDone(k, w) => NotifyMoves(c, s, k, w);
      case WriteEvent(k, w) => WriteMoves(c, s, k, w);
      case ReadEvent(r) => ReadMoves(c, s, r);
      case TakeBatch(r) => TakeMoves(s, r);
      case ProcessNext(r) => ProcessMoves(s, r);
      case MarkFree(r) => MarkMoves(s, r);
      case HaltReactor(r) => PhaseStays(s, r, Halted);
      case _ => MainMoves(c, s, step);
    }
  }

  /** The conservation law: whatever step is taken, in whatever interleaving, no task is duplicated
      or lost between the places. */
  lemma StepMoves(c: Config, s: State, step: Step)
    requires Shape(c, s) && Homed(c, s) && Enabled(c, s, step) && !Apply(c, s, step).aborted
    ensures Moves(s, Apply(c, s, step))
  {
    match step {
      case LeaseTask(r) => LeaseMoves(c, s, r);
      case DepositTask(r) => DepositMoves(c, s, r);
      case _ => StepStays(c, s, step);
    }
  }

  // ---------- the invariant ----------

  ghost predicate OnePlaceEach(c: Config, s: State) {
    forall id: nat :: Places(c, s, id) == if id < c.slab then 1 else 0
  }

  /** A task that is out and whose free flag is set is being deposited right now. */
  ghost predicate FlagsClear(s: State) {
    forall t :: t in Out(s) && t.id in s.marked ==> BeingDeposited(s, t)
  }

  predicate BeingDeposited(s: State, t: Ticket) {
    exists r :: 0 <= r < |s.reactors| && s.reactors[r].phase.Marked? && s.reactors[r].phase.task == t
  }

  ghost predicate Owned(c: Config, s: State) {
    && Shape(c, s)
    && !s.aborted
    && Homed(c, s)
    && OnePlaceEach(c, s)
    && |InSlab(s)| + |Out(s)| == c.slab
    && FlagsClear(s)
    && Sound(s.log)
    && OnLoan(s.log) == Out(s)
  }

  // ---------- tickets name existing reactors ----------

  lemma ReactorIsHome(r: nat, reactor: Reactor, t: Ticket)
    requires HomedReactor(r, reactor) && t in HeldByReactor(reactor)
    ensures t.rid == r
  {
  }

  lemma PoolIsHomed(reactors: nat, pool: Pool, t: Ticket)
    requires HomedPool(reactors, pool) && t in HeldByPool(pool)
    ensures t.rid < reactors
  {
    if t !in multiset(pool.queue) {
      var w := SumFind(HeldByWorker, pool.workers, t);
    }
  }

  lemma OutIsHomed(c: Config, s: State, t: Ticket)
    requires Shape(c, s) && Homed(c, s) && t in Out(s)
    ensures t.rid < c.reactors
  {
    if t in Sum(HeldByReactor, s.reactors) {
      var r := SumFind(HeldByReactor, s.reactors, t);
      ReactorIsHome(r, s.reactors[r], t);
    } else {
      var k := SumFind(HeldByPool, s.pools, t);
      PoolIsHomed(c.reactors, s.pools[k], t);
    }
  }

  lemma {:induction false} CopiesGain(out: multiset<Ticket>, t: Ticket, id: nat, reactors: nat)
    requires t.rid < reactors
    ensures Copies(out + multiset{t}, id, reactors) == Copies(out, id, reactors) + if id == t.id then 1 else 0
    decreases reactors
  {
    if t.rid < reactors - 1 {
      CopiesGain(out, t, id, reactors - 1);
    } else {
      CopiesSame(out + multiset{t}, out, id, reactors - 1);
    }
  }

  lemma {:induction false} CopiesSame(out: multiset<Ticket>, out': multiset<Ticket>, id: nat, reactors: nat)
    requires forall r :: 0 <= r < reactors ==> out[Ticket(id, r)] == out'[Ticket(id, r)]
    ensures Copies(out, id, reactors) == Copies(out', id, reactors)
  {
    if reactors > 0 {
      CopiesSame(out, out', id, reactors - 1);
    }
  }

  lemma {:induction false} CopiesHas(out: multiset<Ticket>, id: nat, r: nat, reactors: nat)
    requires r < reactors
    ensures out[Ticket(id, r)] <= Copies(out, id, reactors)
  {
    if r < reactors - 1 {
      CopiesHas(out, id, r, reactors - 1);
    }
  }

  lemma {:induction false} CopiesHasTwo(out: multiset<Ticket>, id: nat, r: nat, q: nat, reactors: nat)
    requires r < q < reactors
    ensures out[Ticket(id, r)] + out[Ticket(id, q)] <= Copies(out, id, reactors)
  {
    if q < reactors - 1 {
      CopiesHasTwo(out, id, r, q, reactors - 1);
    } else {
      CopiesHas(out, id, r, reactors - 1);
    }
  }

  /** No task is on loan twice, to the same or to different reactors, and a task in the slab is not
      on loan. */
  lemma LoansAreUnique(c: Config, s: State, t: Ticket, u: Ticket)
    requires Shape(c, s) && Homed(c, s) && OnePlaceEach(c, s)
    requires t in Out(s) && u in Out(s) && t.id == u.id
    ensures t == u && Out(s)[t] == 1 && t.id !in InSlab(s)
  {
    OutIsHomed(c, s, t);
    OutIsHomed(c, s, u);
    assert Places(c, s, t.id) <= 1;
    CopiesHas(Out(s), t.id, t.rid, c.reactors);
    if t.rid < u.rid {
      CopiesHasTwo(Out(s), t.id, t.rid, u.rid, c.reactors);
    } else if u.rid < t.rid {
      CopiesHasTwo(Out(s), t.id, u.rid, t.rid, c.reactors);
    }
  }

  // ---------- the aborts are unreachable ----------

  lemma NoAbort(c: Config, s: State, step: Step)
    requires Owned(c, s) && Enabled(c, s, step)
    ensures !Apply(c, s, step).aborted
  {
    hide Out, InSlab, Sum, Places, Homed, OnePlaceEach, FlagsClear, Sound, OnLoan;
    match step {
      case MarkFree(r) => NotDoubleFreed(c, s, r);
      case DepositTask(r) => StackHasRoom(c, s, r);
      case _ =>
    }
  }

  lemma NotDoubleFreed(c: Config, s: State, r: nat)
    requires Owned(c, s) && r < c.reactors && s.reactors[r].phase.Freeing?
    ensures s.reactors[r].phase.task.id !in s.marked
  {
    hide Sum, Places, Homed, OnePlaceEach, Sound, OnLoan;
    var t := s.reactors[r].phase.task;
    HandIsOut(s, r);
    LoansAreUnique(c, s, t, t);
    if t.id in s.marked {
      assert BeingDeposited(s, t);
      var q :| 0 <= q < |s.reactors| && s.reactors[q].phase.Marked? && s.reactors[q].phase.task == t;
      HeldTwice(s, t, r, q);
      assert false;
    }
  }

  lemma HeldTwice(s: State, t: Ticket, r: nat, q: nat)
    requires r < |s.reactors| && q < |s.reactors| && r != q
    requires t in HeldByReactor(s.reactors[r]) && t in HeldByReactor(s.reactors[q])
    ensures Out(s)[t] >= 2
  {
    if r < q {
      SumHasTwo(HeldByReactor, s.reactors, r, q);
    } else {
      SumHasTwo(HeldByReactor, s.reactors, q, r);
    }
  }

  lemma StackHasRoom(c: Config, s: State, r: nat)
    requires Owned(c, s) && r < c.reactors
    ensures |s.stack| + |s.reactors[r].cache| <= c.slab
  {
    SumHas(CacheOf, s.reactors, r);
    SubsetSize(CacheOf(s.reactors[r]), Sum(CacheOf, s.reactors));
  }

  lemma SubsetSize<T>(a: multiset<T>, b: multiset<T>)
    requires a <= b
    ensures |a| <= |b|
  {
    assert b == a + (b - a);
  }

  // ---------- the invariant is kept ----------

  lemma ShapeKept(c: Config, s: State, step: Step)
    requires Shape(c, s) && Enabled(c, s, step)
    ensures Shape(c, Apply(c, s, step))
  {
    if ByReactor(step) {
      ReactorKeepsShape(c, s, step);
    } else {
      PoolsKeepShape(c, s, step);
    }
  }

  predicate ByReactor(step: Step) {
    || step.LeaseTask? || step.GiveUp? || step.ReadEvent? || step.TakeBatch? || step.ProcessNext?
    || step.MarkFree? || step.DepositTask? || step.HaltReactor?
  }

  lemma ReactorKeepsShape(c: Config, s: State, step: Step)
    requires Shape(c, s) && Enabled(c, s, step) && ByReactor(step)
    ensures Shape(c, Apply(c, s, step))
  {
    hide Alloc, Put, Free;
    match step {
      case LeaseTask(r) => AllocConserves(Shelf(s.stack, s.reactors[r].cache, s.marked));
      case DepositTask(r) => PutConserves(Shelf(s.stack, s.reactors[r].cache, s.marked), c.slab, s.reactors[r].phase.task.id);
      case _ =>
    }
  }

  lemma PoolsKeepShape(c: Config, s: State, step: Step)
    requires Shape(c, s) && Enabled(c, s, step) && !ByReactor(step)
    ensures Shape(c, Apply(c, s, step))
  {
  }

  lemma ReactorStaysHomed(c: Config, s: State, step: Step, r: nat)
    requires Shape(c, s) && Homed(c, s) && Enabled(c, s, step) && r < c.reactors
    ensures HomedReactor(r, Apply(c, s, step).reactors[r])
  {
    hide Alloc, Put;
    assert HomedReactor(r, s.reactors[r]);
  }

  lemma WorkerStaysHomed(reactors: nat, pool: Pool, w: nat, worker: Worker)
    requires HomedPool(reactors, pool) && w < |pool.workers|
    requires worker.Running? ==> worker.task.rid < reactors
    requires worker.Notifying? ==> worker.rid < reactors
    ensures HomedPool(reactors, pool.(workers := pool.workers[w := worker]))
  {
  }

  lemma CheckStaysHomed(reactors: nat, s: State, k: nat, w: nat)
    requires AtWorker(s, k, w) && HomedPool(reactors, s.pools[k])
    ensures HomedPool(reactors, DoCheck(s, k, w).pools[k])
  {
    WorkerStaysHomed(reactors, s.pools[k], w, Asleep);
    WorkerStaysHomed(reactors, s.pools[k], w, Exited);
  }

  lemma PoolStaysHomed(c: Config, s: State, step: Step, k: nat)
    requires Shape(c, s) && Enabled(c, s, step) && k < 2
    requires HomedPool(c.reactors, s.pools[k])
    requires step.OfferTask? ==> s.reactors[step.r].phase.task.rid < c.reactors
    ensures HomedPool(c.reactors, Apply(c, s, step).pools[k])
  {
    hide Alloc, Put;
    match step {
      case CheckQueue(k', w) =>
        if k' == k {
          CheckStaysHomed(c.reactors, s, k, w);
        }
      case NotifyDone(k', w) =>
        if k' == k {
          WorkerStaysHomed(c.reactors, s.pools[k], w, Ready);
          WorkerStaysHomed(c.reactors, s.pools[k], w, Notifying(s.pools[k].workers[w].task.rid));
        }
      case _ =>
    }
  }

  /** Handing a task on keeps it homed: what a component holds afterwards it held before, or it
      received it from a component that held it. */
  lemma HomedKept(c: Config, s: State, step: Step)
    requires Shape(c, s) && Homed(c, s) && Enabled(c, s, step)
    ensures Homed(c, Apply(c, s, step))
  {
    hide HomedPool;
    ShapeKept(c, s, step);
    var s' := Apply(c, s, step);
    forall r | 0 <= r < |s'.reactors| ensures HomedReactor(r, s'.reactors[r]) {
      ReactorStaysHomed(c, s, step, r);
    }
    forall k | 0 <= k < |s'.pools| ensures HomedPool(c.reactors, s'.pools[k]) {
      PoolStaysHomed(c, s, step, k);
    }
  }

  lemma LoansKept(c: Config, s: State, s': State)
    requires Shape(c, s) && Homed(c, s) && OnePlaceEach(c, s) && |InSlab(s)| + |Out(s)| == c.slab
    requires Sound(s.log) && OnLoan(s.log) == Out(s)
    requires Moves(s, s')
    ensures OnePlaceEach(c, s') && |InSlab(s')| + |Out(s')| == c.slab
    ensures Sound(s'.log) && OnLoan(s'.log) == Out(s')
  {
    hide Sum, Homed, Lends, Returns, Sound, OnLoan, Out, InSlab;
    if !Stays(s, s') {
      if t :| Lends(s, s', t) {
        LendKept(c, s, s', t);
      } else {
        var t :| Returns(s, s', t);
        ReturnKept(c, s, s', t);
      }
    } else {
      forall id: nat ensures Places(c, s', id) == if id < c.slab then 1 else 0 {
        assert Places(c, s', id) == Places(c, s, id);
      }
    }
  }

  lemma LendKept(c: Config, s: State, s': State, t: Ticket)
    requires Shape(c, s) && Homed(c, s) && OnePlaceEach(c, s) && |InSlab(s)| + |Out(s)| == c.slab
    requires Sound(s.log) && OnLoan(s.log) == Out(s)
    requires Lends(s, s', t)
    ensures OnePlaceEach(c, s') && |InSlab(s')| + |Out(s')| == c.slab
    ensures Sound(s'.log) && OnLoan(s'.log) == Out(s')
  {
    hide Sum, Homed;
    forall id: nat ensures Places(c, s', id) == if id < c.slab then 1 else 0 {
      CopiesGain(Out(s), t, id, c.reactors);
      assert Places(c, s, id) == if id < c.slab then 1 else 0;
    }
    assert s'.log[..|s'.log| - 1] == s.log;
    assert t.id in InSlab(s);
    forall r ensures Ticket(t.id, r) !in Out(s) {
      if Ticket(t.id, r) in Out(s) {
        LoansAreUnique(c, s, Ticket(t.id, r), Ticket(t.id, r));
      }
    }
  }

  lemma ReturnKept(c: Config, s: State, s': State, t: Ticket)
    requires Shape(c, s) && Homed(c, s) && OnePlaceEach(c, s) && |InSlab(s)| + |Out(s)| == c.slab
    requires Sound(s.log) && OnLoan(s.log) == Out(s)
    requires Returns(s, s', t)
    ensures OnePlaceEach(c, s') && |InSlab(s')| + |Out(s')| == c.slab
    ensures Sound(s'.log) && OnLoan(s'.log) == Out(s')
  {
    hide Sum, Homed;
    OutIsHomed(c, s, t);
    forall id: nat ensures Places(c, s', id) == if id < c.slab then 1 else 0 {
      CopiesGain(Out(s'), t, id, c.reactors);
      assert Places(c, s, id) == if id < c.slab then 1 else 0;
    }
    assert s'.log[..|s'.log| - 1] == s.log;
    assert (Out(s') + multiset{t}) - multiset{t} == Out(s');
  }

  /** Marking sets one flag, a lease clears flags, nothing else touches them. */
  lemma FlagsKept(c: Config, s: State, step: Step)
    requires Owned(c, s) && Enabled(c, s, step)
    requires !Apply(c, s, step).aborted && Moves(s, Apply(c, s, step))
    ensures FlagsClear(Apply(c, s, step))
  {
    hide Sum, Homed, Places, OnePlaceEach, Sound, OnLoan;
    var s' := Apply(c, s, step);
    forall t | t in Out(s') && t.id in s'.marked ensures BeingDeposited(s', t) {
      FlagKept(c, s, step, t);
    }
  }

  /** Only its own deposit ends a reactor's marked phase. */
  lemma StaysMarked(c: Config, s: State, step: Step, t: Ticket)
    requires Shape(c, s) && Enabled(c, s, step) && BeingDeposited(s, t)
    requires step.DepositTask? ==> s.reactors[step.r].phase.task != t
    ensures BeingDeposited(Apply(c, s, step), t)
  {
    var q :| 0 <= q < |s.reactors| && s.reactors[q].phase.Marked? && s.reactors[q].phase.task == t;
    assert Apply(c, s, step).reactors[q].phase == s.reactors[q].phase;
  }

  lemma FlagKept(c: Config, s: State, step: Step, t: Ticket)
    requires Owned(c, s) && Enabled(c, s, step)
    requires !Apply(c, s, step).aborted
    requires t in Out(Apply(c, s, step)) && t.id in Apply(c, s, step).marked
    ensures BeingDeposited(Apply(c, s, step), t)
  {
    hide Sum, Homed, Places, OnePlaceEach, Sound, OnLoan, BeingDeposited, Out, InSlab;
    match step {
      case LeaseTask(r) => FlagLease(c, s, r, t);
      case MarkFree(r) => FlagMark(c, s, r, t);
      case DepositTask(r) => FlagDeposit(c, s, r, t);
      case _ =>
        StepStays(c, s, step);
        StaysMarked(c, s, step, t);
    }
  }

  lemma FlagLease(c: Config, s: State, r: nat, t: Ticket)
    requires Shape(c, s) && Homed(c, s) && OnePlaceEach(c, s) && FlagsClear(s) && Enabled(c, s, LeaseTask(r))
    requires t in Out(DoLease(s, r)) && t.id in DoLease(s, r).marked
    ensures BeingDeposited(DoLease(s, r), t)
  {
    hide Sum, Homed, Places, OnePlaceEach, Sound, OnLoan, BeingDeposited, Out, InSlab;
    LeaseMoves(c, s, r);
    AllocConserves(Shelf(s.stack, s.reactors[r].cache, s.marked));
    assert t in Out(s) && t.id in s.marked;
    StaysMarked(c, s, LeaseTask(r), t);
  }

  lemma FlagMark(c: Config, s: State, r: nat, t: Ticket)
    requires Shape(c, s) && Homed(c, s) && OnePlaceEach(c, s) && FlagsClear(s) && Enabled(c, s, MarkFree(r)) && !DoMark(s, r).aborted
    requires t in Out(DoMark(s, r)) && t.id in DoMark(s, r).marked
    ensures BeingDeposited(DoMark(s, r), t)
  {
    hide Sum, Homed, Places, OnePlaceEach, Sound, OnLoan, InSlab, Out, HeldByReactor;
    var u := s.reactors[r].phase.task;
    MarkMoves(s, r);
    if t.id == u.id {
      HandIsOut(s, r);
      LoansAreUnique(c, s, t, u);
      assert DoMark(s, r).reactors[r].phase.task == t;
    } else {
      StaysMarked(c, s, MarkFree(r), t);
    }
  }

  lemma HandIsOut(s: State, r: nat)
    requires r < |s.reactors| && (s.reactors[r].phase.Freeing? || s.reactors[r].phase.Marked?)
    ensures s.reactors[r].phase.task in HeldByReactor(s.reactors[r])
    ensures s.reactors[r].phase.task in Out(s)
  {
    hide Sum, HeldByPool;
    SumHas(HeldByReactor, s.reactors, r);
  }

  lemma FlagDeposit(c: Config, s: State, r: nat, t: Ticket)
    requires Shape(c, s) && Homed(c, s) && OnePlaceEach(c, s) && FlagsClear(s) && Enabled(c, s, DepositTask(r)) && !DoDeposit(c, s, r).aborted
    requires t in Out(DoDeposit(c, s, r)) && t.id in DoDeposit(c, s, r).marked
    ensures BeingDeposited(DoDeposit(c, s, r), t)
  {
    hide Sum, Homed, Places, OnePlaceEach, Sound, OnLoan, InSlab, Out, BeingDeposited;
    var u := s.reactors[r].phase.task;
    DepositMoves(c, s, r);
    LoansAreUnique(c, s, u, u);
    assert t != u;
    StaysMarked(c, s, DepositTask(r), t);
  }

  lemma OwnedKept(c: Config, s: State, step: Step)
    requires Owned(c, s) && Enabled(c, s, step)
    ensures Owned(c, Apply(c, s, step))
  {
    hide Sum, Homed, OnePlaceEach, Sound, OnLoan, FlagsClear, Moves, Out, InSlab;
    NoAbort(c, s, step);
    ShapeKept(c, s, step);
    HomedKept(c, s, step);
    StepMoves(c, s, step);
    LoansKept(c, s, Apply(c, s, step));
    FlagsKept(c, s, step);
  }

  // ---------- every run ----------

  lemma {:induction false} NoCopies(id: nat, reactors: nat)
    ensures Copies(multiset{}, id, reactors) == 0
  {
    if reactors > 0 {
      NoCopies(id, reactors - 1);
    }
  }

  lemma InitHoldsNothing(c: Config)
    ensures Out(Init(c)) == multiset{}
    ensures InSlab(Init(c)) == multiset(Init(c).stack)
  {
    hide Sum;
    var s := Init(c);
    forall k | 0 <= k < |s.pools| ensures HeldByPool(s.pools[k]) == multiset{} {
      SumEmpty(HeldByWorker, s.pools[k].workers);
    }
    SumEmpty(HeldByPool, s.pools);
    SumEmpty(HeldByReactor, s.reactors);
    SumEmpty(CacheOf, s.reactors);
  }

  lemma InitOwned(c: Config)
    ensures Owned(c, Init(c))
  {
    hide Sum;
    var s := Init(c);
    InitHoldsNothing(c);
    forall id: nat ensures Places(c, s, id) == if id < c.slab then 1 else 0 {
      EachOnce(s.stack, id);
      NoCopies(id, c.reactors);
    }
  }

  /** Main result: in every reachable state, every slab task is in exactly one place, no leased task
      has its free flag set, every return in the history is of a task on loan to that reactor, every
      lease is of a task nobody had, and neither abort in `task_pool_free` was reached. */
  lemma {:induction false} OwnershipHolds(c: Config, run: seq<Step>)
    requires Legal(c, run)
    ensures Owned(c, Exec(c, run))
    decreases |run|
  {
    hide Owned, Apply, Enabled;
    if run == [] {
      InitOwned(c);
    } else {
      var last := |run| - 1;
      OwnershipHolds(c, run[..last]);
      OwnedKept(c, Exec(c, run[..last]), run[last]);
    }
  }

  function LentTimes(log: seq<Event>, t: Ticket): nat {
    if log == [] then 0
    else LentTimes(log[..|log| - 1], t) + if log[|log| - 1] == Lent(t) then 1 else 0
  }

  function ReturnedTimes(log: seq<Event>, t: Ticket): nat {
    if log == [] then 0
    else ReturnedTimes(log[..|log| - 1], t) + if log[|log| - 1] == Returned(t) then 1 else 0
  }

  /** In a sound history a task has been lent exactly once more than returned if it is on loan, and
      equally often otherwise. */
  lemma {:induction false} LedgerBalances(log: seq<Event>, t: Ticket)
    requires Sound(log)
    ensures LentTimes(log, t) == ReturnedTimes(log, t) + OnLoan(log)[t]
    decreases |log|
  {
    if log != [] {
      LedgerBalances(log[..|log| - 1], t);
    }
  }

  /** Every lease is matched by exactly one return, by the reactor that leased, as soon as the task is
      no longer held anywhere; while it is held, exactly one lease is open. */
  lemma ReturnedExactlyOnce(c: Config, run: seq<Step>, t: Ticket)
    requires Legal(c, run)
    ensures var s := Exec(c, run);
      LentTimes(s.log, t) - ReturnedTimes(s.log, t) == (if t in Out(s) then 1 else 0)
  {
    hide Sum, Exec, Legal;
    OwnershipHolds(c, run);
    var s := Exec(c, run);
    LedgerBalances(s.log, t);
    if t in Out(s) {
      LoansAreUnique(c, s, t, t);
    }
  }
}
