/** The request pipeline of lib/server.c, lib/worker_pool.c and lib/task_pool.c as a transition
    system.

    A step is one critical section, or one action in the gap between an unlock and the signal or
    write that follows it. Threads interleave arbitrarily between steps. */
module Pipeline {
  import opened Tally
  import opened TaskSlab
  import opened WorkQueue

  const FAST: nat := 0
  const SLOW: nat := 1

  /** An eventfd counter cannot be raised above this value; a non-blocking write then fails. */
  const EVENTFD_MAX: nat := 0xFFFF_FFFF_FFFF_FFFE

  datatype Config = Config(reactors: nat, fastWorkers: nat, slowWorkers: nat, slab: nat, queueLimit: nat)

  /** A leased task: its slab index and the reactor recorded in its `reactor_id`. */
  datatype Ticket = Ticket(id: nat, rid: nat)

  datatype Worker =
    | Ready                       // about to lock the pool and look at the queue
    | Asleep                      // inside pthread_cond_wait
    | Woken                       // signalled or spuriously woken, has not looked yet
    | Running(task: Ticket)       // popped a task, has not handed it back
    | Notifying(rid: nat)         // found the completion queue empty, eventfd write still due
    | Exited

  datatype Phase =
    | Idle                                          // between event-loop callbacks
    | Leased(task: Ticket)                          // inside server_enqueue_task
    | SignalDue(pool: nat)                          // task accepted, pthread_cond_signal still due
    | Reading                                       // eventfd drained, completion queue not taken yet
    | Draining(batch: seq<Ticket>)                  // walking the taken list
    | Freeing(task: Ticket, rest: seq<Ticket>)      // about to call task_pool_free
    | Marked(task: Ticket, rest: seq<Ticket>)       // free flag set, task not deposited yet
    | Halted

  /** `notified` and `taken` record the completion queue's history, `replied` the tasks processed. */
  datatype Reactor = Reactor(cache: seq<nat>, phase: Phase, completed: seq<Ticket>, eventfd: nat,
                             notified: seq<Ticket>, taken: seq<Ticket>, replied: seq<Ticket>)

  /** `accepted` and `popped` record the work queue's history. */
  datatype Pool = Pool(queue: seq<Ticket>, shutdown: bool, workers: seq<Worker>,
                       accepted: seq<Ticket>, popped: seq<Ticket>)

  /** Progress of `wait_and_shutdown`. */
  datatype Main =
    | Serving
    | Flagged(pool: nat)       // shutdown flag raised, broadcast still due
    | Broadcast(pool: nat)
    | Polling(next: nat)       // all workers joined; completion queues before `next` were seen empty
    | Breaking                 // event loops told to stop

  datatype Event = Lent(task: Ticket) | Returned(task: Ticket)

  datatype State = State(stack: seq<nat>, marked: set<nat>, reactors: seq<Reactor>, pools: seq<Pool>,
                         main: Main, aborted: bool, log: seq<Event>)

  datatype Step =
    | LeaseTask(r: nat)                  // task_pool_alloc in server_enqueue_task
    | GiveUp(r: nat)                     // no evbuffer, or header, URI or address too long
    | OfferTask(r: nat, k: nat)          // worker_pool_enqueue
    | SignalPool(r: nat, w: nat)         // pthread_cond_signal; w is the worker it wakes, if any sleeps
    | WakeSpuriously(k: nat, w: nat)
    | CheckQueue(k: nat, w: nat)         // one pass through the worker's critical section
    | NotifyDone(k: nat, w: nat)         // server_notify_task_done up to the unlock
    | WriteEvent(k: nat, w: nat)
    | ReadEvent(r: nat)                  // one read of the eventfd in reactor_eventfd_cb
    | TakeBatch(r: nat)
    | ProcessNext(r: nat)                // reply or clean up the next task of the batch
    | MarkFree(r: nat)                   // compare-and-swap in task_pool_free
    | DepositTask(r: nat)
    | RaiseShutdown
    | BroadcastShutdown
    | JoinWorkers
    | PollReactor
    | HaltReactor(r: nat)

  function Init(c: Config): State {
    var all: seq<nat> := seq(c.slab, i => i);
    State(all, set id | id in all,
          seq(c.reactors, i => Reactor([], Idle, [], 0, [], [], [])),
          [Pool([], false, seq(c.fastWorkers, i => Ready), [], []),
           Pool([], false, seq(c.slowWorkers, i => Ready), [], [])],
          Serving, false, [])
  }

  predicate AnyAsleep(workers: seq<Worker>) {
    exists w :: 0 <= w < |workers| && workers[w].Asleep?
  }

  function WakeAll(workers: seq<Worker>): seq<Worker> {
    seq(|workers|, w requires 0 <= w < |workers| => if workers[w].Asleep? then Woken else workers[w])
  }

  predicate AllExited(workers: seq<Worker>) {
    forall w :: 0 <= w < |workers| ==> workers[w].Exited?
  }

  predicate AtWorker(s: State, k: nat, w: nat) {
    k < |s.pools| && w < |s.pools[k].workers|
  }

  predicate Enabled(c: Config, s: State, step: Step) {
    !s.aborted &&
    match step
    case LeaseTask(r) => r < |s.reactors| && s.reactors[r].phase.Idle?
    case GiveUp(r) => r < |s.reactors| && s.reactors[r].phase.Leased?
    case OfferTask(r, k) => r < |s.reactors| && s.reactors[r].phase.Leased? && k < |s.pools|
    case SignalPool(r, w) =>
      && r < |s.reactors| && s.reactors[r].phase.SignalDue? && s.reactors[r].phase.pool < |s.pools|
      && var workers := s.pools[s.reactors[r].phase.pool].workers;
         AnyAsleep(workers) ==> w < |workers| && workers[w].Asleep?
    case WakeSpuriously(k, w) => AtWorker(s, k, w) && s.pools[k].workers[w].Asleep?
    case CheckQueue(k, w) => AtWorker(s, k, w) && (s.pools[k].workers[w].Ready? || s.pools[k].workers[w].Woken?)
    case NotifyDone(k, w) => AtWorker(s, k, w) && s.pools[k].workers[w].Running?
    case WriteEvent(k, w) =>
      AtWorker(s, k, w) && s.pools[k].workers[w].Notifying? && s.pools[k].workers[w].rid < |s.reactors|
    case ReadEvent(r) =>
      r < |s.reactors| && ((s.reactors[r].phase.Idle? && s.reactors[r].eventfd > 0) || s.reactors[r].phase.Reading?)
    case TakeBatch(r) => r < |s.reactors| && s.reactors[r].phase.Reading?
    case ProcessNext(r) => r < |s.reactors| && s.reactors[r].phase.Draining?
    case MarkFree(r) => r < |s.reactors| && s.reactors[r].phase.Freeing?
    case DepositTask(r) => r < |s.reactors| && s.reactors[r].phase.Marked?
    case RaiseShutdown => |s.pools| == 2 && (s.main.Serving? || s.main == Broadcast(FAST))
    case BroadcastShutdown => s.main.Flagged? && s.main.pool < |s.pools|
    case JoinWorkers => s.main == Broadcast(SLOW) && forall k :: 0 <= k < |s.pools| ==> AllExited(s.pools[k].workers)
    case PollReactor => s.main.Polling? && s.main.next <= |s.reactors|
    case HaltReactor(r) => r < |s.reactors| && s.reactors[r].phase.Idle? && s.main.Breaking?
  }

  function SetPhase(s: State, r: nat, phase: Phase): State
    requires r < |s.reactors|
  {
    s.(reactors := s.reactors[r := s.reactors[r].(phase := phase)])
  }

  function SetWorker(s: State, k: nat, w: nat, worker: Worker): State
    requires AtWorker(s, k, w)
  {
    s.(pools := s.pools[k := s.pools[k].(workers := s.pools[k].workers[w := worker])])
  }

  function DoLease(s: State, r: nat): State
    requires r < |s.reactors|
  {
    var (shelf, lease) := Alloc(Shelf(s.stack, s.reactors[r].cache, s.marked));
    var phase := if lease.Lease? then Leased(Ticket(lease.id, r)) else Idle;
    s.(stack := shelf.stack, marked := shelf.marked,
       reactors := s.reactors[r := s.reactors[r].(cache := shelf.cache, phase := phase)],
       log := if lease.Lease? then s.log + [Lent(Ticket(lease.id, r))] else s.log)
  }

  function DoOffer(c: Config, s: State, r: nat, k: nat): State
    requires Enabled(c, s, OfferTask(r, k))
  {
    var task := s.reactors[r].phase.task;
    var pool := s.pools[k];
    if Accepts(pool.shutdown, c.queueLimit, |pool.queue|) then
      SetPhase(s.(pools := s.pools[k := pool.(queue := pool.queue + [task], accepted := pool.accepted + [task])]),
               r, SignalDue(k))
    else
      SetPhase(s, r, Freeing(task, []))
  }

  function DoSignal(c: Config, s: State, r: nat, w: nat): State
    requires Enabled(c, s, SignalPool(r, w))
  {
    var k := s.reactors[r].phase.pool;
    var idle := SetPhase(s, r, Idle);
    if AnyAsleep(s.pools[k].workers) then SetWorker(idle, k, w, Woken) else idle
  }

  function DoCheck(s: State, k: nat, w: nat): State
    requires AtWorker(s, k, w)
  {
    var pool := s.pools[k];
    match Poll(pool.queue, pool.shutdown)
    case Sleep => SetWorker(s, k, w, Asleep)
    case Exit => SetWorker(s, k, w, Exited)
    case Run(task, rest) =>
      s.(pools := s.pools[k := pool.(queue := rest, popped := pool.popped + [task],
                                     workers := pool.workers[w := Running(task)])])
  }

  function DoNotify(s: State, k: nat, w: nat): State
    requires AtWorker(s, k, w) && s.pools[k].workers[w].Running?
  {
    var task := s.pools[k].workers[w].task;
    if task.rid >= |s.reactors| then SetWorker(s, k, w, Ready)
    else
      var reactor := s.reactors[task.rid];
      var after := if reactor.completed == [] then Notifying(task.rid) else Ready;
      SetWorker(s, k, w, after).(reactors := s.reactors[task.rid := reactor.(
        completed := reactor.completed + [task], notified := reactor.notified + [task])])
  }

  function DoWrite(s: State, k: nat, w: nat): State
    requires AtWorker(s, k, w) && s.pools[k].workers[w].Notifying? && s.pools[k].workers[w].rid < |s.reactors|
  {
    var rid := s.pools[k].workers[w].rid;
    var reactor := s.reactors[rid];
    var counter := if reactor.eventfd < EVENTFD_MAX then reactor.eventfd + 1 else reactor.eventfd;
    SetWorker(s, k, w, Ready).(reactors := s.reactors[rid := reactor.(eventfd := counter)])
  }

  function DoTake(s: State, r: nat): State
    requires r < |s.reactors|
  {
    var reactor := s.reactors[r];
    s.(reactors := s.reactors[r := reactor.(phase := Draining(reactor.completed), completed := [],
                                            taken := reactor.taken + reactor.completed)])
  }

  function DoProcess(s: State, r: nat): State
    requires r < |s.reactors| && s.reactors[r].phase.Draining?
  {
    var reactor := s.reactors[r];
    var batch := reactor.phase.batch;
    if batch == [] then SetPhase(s, r, Idle)
    else s.(reactors := s.reactors[r := reactor.(phase := Freeing(batch[0], batch[1..]), replied := reactor.replied + [batch[0]])])
  }

  function DoMark(s: State, r: nat): State
    requires r < |s.reactors| && s.reactors[r].phase.Freeing?
  {
    var phase := s.reactors[r].phase;
    if phase.task.id in s.marked then s.(aborted := true)
    else SetPhase(s.(marked := s.marked + {phase.task.id}), r, Marked(phase.task, phase.rest))
  }

  function DoDeposit(c: Config, s: State, r: nat): State
    requires r < |s.reactors| && s.reactors[r].phase.Marked?
  {
    var reactor := s.reactors[r];
    var (shelf, outcome) := Put(Shelf(s.stack, reactor.cache, s.marked), c.slab, reactor.phase.task.id);
    if outcome.StackOverflow? then s.(aborted := true)
    else s.(stack := shelf.stack, marked := shelf.marked,
            reactors := s.reactors[r := reactor.(cache := shelf.cache, phase := Draining(reactor.phase.rest))],
            log := s.log + [Returned(reactor.phase.task)])
  }

  function DoPoll(s: State): State
    requires s.main.Polling? && s.main.next <= |s.reactors|
  {
    if s.main.next == |s.reactors| then s.(main := Breaking)
    else if s.reactors[s.main.next].completed == [] then s.(main := Polling(s.main.next + 1))
    else s
  }

  function Apply(c: Config, s: State, step: Step): State
    requires Enabled(c, s, step)
  {
    match step
    case LeaseTask(r) => DoLease(s, r)
    case GiveUp(r) => SetPhase(s, r, Freeing(s.reactors[r].phase.task, []))
    case OfferTask(r, k) => DoOffer(c, s, r, k)
    case SignalPool(r, w) => DoSignal(c, s, r, w)
    case WakeSpuriously(k, w) => SetWorker(s, k, w, Woken)
    case CheckQueue(k, w) => DoCheck(s, k, w)
    case NotifyDone(k, w) => DoNotify(s, k, w)
    case WriteEvent(k, w) => DoWrite(s, k, w)
    case ReadEvent(r) => s.(reactors := s.reactors[r := s.reactors[r].(phase := Reading, eventfd := 0)])
    case TakeBatch(r) => DoTake(s, r)
    case ProcessNext(r) => DoProcess(s, r)
    case MarkFree(r) => DoMark(s, r)
    case DepositTask(r) => DoDeposit(c, s, r)
    case RaiseShutdown =>
      var k := if s.main.Serving? then FAST else SLOW;
      s.(main := Flagged(k), pools := s.pools[k := s.pools[k].(shutdown := true)])
    case BroadcastShutdown =>
      var k := s.main.pool;
      s.(main := Broadcast(k), pools := s.pools[k := s.pools[k].(workers := WakeAll(s.pools[k].workers))])
    case JoinWorkers => s.(main := Polling(0))
    case PollReactor => DoPoll(s)
    case HaltReactor(r) => SetPhase(s, r, Halted)
  }

  /** A run is legal when every step is enabled where it is taken. */
  predicate Legal(c: Config, run: seq<Step>)
    decreases |run|, 0
  {
    run == [] ||
    var last := |run| - 1;
    Legal(c, run[..last]) && Enabled(c, Exec(c, run[..last]), run[last])
  }

  /** The state a legal run ends in. The reachable states are exactly these. */
  function Exec(c: Config, run: seq<Step>): State
    requires Legal(c, run)
    decreases |run|, 1
  {
    if run == [] then Init(c)
    else
      var last := |run| - 1;
      Apply(c, Exec(c, run[..last]), run[last])
  }
}
