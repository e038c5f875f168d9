/** Graceful shutdown over every run: work accepted before the stop reaches its reactor, nothing is
    accepted afterwards, the workers' part of the shutdown terminates, and a halted server has every
    task back in its slab. */
module Shutdown {
  import opened Tally
  import opened TaskSlab
  import opened WorkQueue
  import opened Pipeline
  import opened Ownership
  import opened Wakeups

  // ---------- stages of the shutdown ----------

  /** Whether `worker_pool_stop` has raised pool k's flag. */
  predicate Raised(main: Main, k: nat) {
    match main
    case Serving => false
    case Flagged(pool) => k <= pool
    case Broadcast(pool) => k <= pool
    case _ => true
  }

  /** Whether the broadcast that follows the flag of pool k has been sent. */
  predicate Sent(main: Main, k: nat) {
    match main
    case Serving => false
    case Flagged(pool) => k < pool
    case Broadcast(pool) => k <= pool
    case _ => true
  }

  predicate Joined(main: Main) {
    main.Polling? || main.Breaking?
  }

  predicate PoolStage(main: Main, k: nat, pool: Pool) {
    && pool.shutdown == Raised(main, k)
    && (Sent(main, k) ==> !AnyAsleep(pool.workers))
    && (forall w :: 0 <= w < |pool.workers| && pool.workers[w].Exited? ==> pool.shutdown && pool.queue == [])
    && (Joined(main) ==> AllExited(pool.workers))
  }

  predicate ReactorStage(main: Main, r: nat, reactor: Reactor) {
    && (reactor.phase.Halted? ==> main.Breaking?)
    && AllHomed(r, reactor.notified)
    && (main.Polling? && r < main.next ==> reactor.completed == [])
    && (main.Breaking? ==> reactor.completed == [])
  }

  predicate Staged(c: Config, s: State) {
    && Shape(c, s)
    && (s.main.Flagged? || s.main.Broadcast? ==> s.main.pool < 2)
    && (s.main.Polling? ==> s.main.next <= c.reactors)
    && (forall k :: 0 <= k < 2 ==> PoolStage(s.main, k, s.pools[k]))
    && (forall r :: 0 <= r < c.reactors ==> ReactorStage(s.main, r, s.reactors[r]))
  }

  function NotifiedTo(reactor: Reactor): multiset<Ticket> {
    multiset(reactor.notified)
  }

  function AcceptedBy(pool: Pool): multiset<Ticket> {
    multiset(pool.accepted)
  }

  /** Flow: everything a pool ever accepted was handed to a reactor or is still in a pool. */
  predicate Flows(s: State) {
    Sum(AcceptedBy, s.pools) == Sum(NotifiedTo, s.reactors) + Sum(HeldByPool, s.pools)
  }

  // ---------- the stages are kept ----------

  lemma WorkerStage(main: Main, k: nat, pool: Pool, w: nat, worker: Worker)
    requires PoolStage(main, k, pool) && w < |pool.workers|
    requires !pool.workers[w].Exited? && !worker.Asleep? && !worker.Exited?
    ensures PoolStage(main, k, pool.(workers := pool.workers[w := worker]))
  {
    if AnyAsleep(pool.workers[w := worker]) {
      SleeperWasThere(pool.workers, w, worker);
    }
  }

  lemma CheckStage(main: Main, s: State, k: nat, w: nat)
    requires AtWorker(s, k, w) && PoolStage(main, k, s.pools[k])
    requires !s.pools[k].workers[w].Exited? && !s.pools[k].workers[w].Asleep?
    requires Sent(main, k) ==> Raised(main, k)
    ensures PoolStage(main, k, DoCheck(s, k, w).pools[k])
  {
    var pool, pool' := s.pools[k], DoCheck(s, k, w).pools[k];
    if Sent(main, k) && AnyAsleep(pool'.workers) {
      SleeperWasThere(pool.workers, w, pool'.workers[w]);
    }
  }

  lemma SentIsRaised(main: Main, k: nat)
    ensures Sent(main, k) ==> Raised(main, k)
  {
  }

  lemma BroadcastStage(k: nat, pool: Pool)
    requires k < 2 && PoolStage(Flagged(k), k, pool)
    ensures PoolStage(Broadcast(k), k, pool.(workers := WakeAll(pool.workers)))
  {
    WakeAllSleepsNone(pool.workers);
  }

  lemma MainStage(c: Config, s: State, step: Step, k: nat)
    requires Shape(c, s) && Enabled(c, s, step) && k < 2 && PoolStage(s.main, k, s.pools[k])
    requires s.main.Flagged? || s.main.Broadcast? ==> s.main.pool < 2
    requires step.RaiseShutdown? || step.BroadcastShutdown? || step.JoinWorkers? || step.PollReactor?
    ensures PoolStage(Apply(c, s, step).main, k, Apply(c, s, step).pools[k])
  {
    if step.BroadcastShutdown? && s.main.pool == k {
      BroadcastStage(k, s.pools[k]);
    }
  }

  lemma OfferStage(c: Config, s: State, r: nat, target: nat, k: nat)
    requires Shape(c, s) && Enabled(c, s, OfferTask(r, target)) && k < 2 && PoolStage(s.main, k, s.pools[k])
    ensures PoolStage(s.main, k, DoOffer(c, s, r, target).pools[k])
  {
  }

  lemma SignalStage(c: Config, s: State, r: nat, w: nat, k: nat)
    requires Shape(c, s) && Enabled(c, s, SignalPool(r, w)) && k < 2 && PoolStage(s.main, k, s.pools[k])
    ensures PoolStage(s.main, k, DoSignal(c, s, r, w).pools[k])
  {
    if s.reactors[r].phase.pool == k && AnyAsleep(s.pools[k].workers) {
      WorkerStage(s.main, k, s.pools[k], w, Woken);
    }
  }

  lemma PoolStageKept(c: Config, s: State, step: Step, k: nat)
    requires Shape(c, s) && Enabled(c, s, step) && k < 2 && PoolStage(s.main, k, s.pools[k])
    requires s.main.Flagged? || s.main.Broadcast? ==> s.main.pool < 2
    ensures PoolStage(Apply(c, s, step).main, k, Apply(c, s, step).pools[k])
  {
    hide PoolStage;
    match step {
      case OfferTask(r, target) => OfferStage(c, s, r, target, k);
      case SignalPool(r, w) => SignalStage(c, s, r, w, k);
      case WakeSpuriously(k', w) =>
        if k' == k { WorkerStage(s.main, k, s.pools[k], w, Woken); }
      case CheckQueue(k', w) =>
        SentIsRaised(s.main, k);
        if k' == k { CheckStage(s.main, s, k, w); }
      case NotifyDone(k', w) =>
        if k' == k { WorkerStage(s.main, k, s.pools[k], w, Apply(c, s, step).pools[k].workers[w]); }
      case WriteEvent(k', w) =>
        if k' == k { WorkerStage(s.main, k, s.pools[k], w, Ready); }
      case RaiseShutdown => MainStage(c, s, step, k);
      case BroadcastShutdown => MainStage(c, s, step, k);
      case JoinWorkers => MainStage(c, s, step, k);
      case PollReactor => MainStage(c, s, step, k);
      case _ =>
    }
  }

  /** Once the workers are joined nobody adds to a completion queue. */
  lemma ReactorStageKept(c: Config, s: State, step: Step, r: nat)
    requires Staged(c, s) && Homed(c, s) && Enabled(c, s, step) && r < c.reactors
    ensures ReactorStage(Apply(c, s, step).main, r, Apply(c, s, step).reactors[r])
  {
    hide PoolStage, Homed, Alloc, Put;
    assert ReactorStage(s.main, r, s.reactors[r]);
    if step.NotifyDone? {
      RunningIsNotJoined(s, step.k, step.w);
    } else if step.PollReactor? && s.main.next == c.reactors {
      assert r < s.main.next;
    }
  }

  lemma RunningIsNotJoined(s: State, k: nat, w: nat)
    requires AtWorker(s, k, w) && k < 2 && s.pools[k].workers[w].Running?
    requires PoolStage(s.main, k, s.pools[k])
    ensures !Joined(s.main)
  {
  }

  lemma StagedKept(c: Config, s: State, step: Step)
    requires Staged(c, s) && Homed(c, s) && Enabled(c, s, step)
    ensures Staged(c, Apply(c, s, step))
  {
    hide PoolStage, ReactorStage, Homed;
    ShapeKept(c, s, step);
    var s' := Apply(c, s, step);
    forall k | 0 <= k < 2 ensures PoolStage(s'.main, k, s'.pools[k]) {
      PoolStageKept(c, s, step, k);
    }
    forall r | 0 <= r < c.reactors ensures ReactorStage(s'.main, r, s'.reactors[r]) {
      ReactorStageKept(c, s, step, r);
    }
  }

  // ---------- the flow is kept ----------

  lemma AcceptFlows(s: State, r: nat, k: nat)
    requires r < |s.reactors| && k < |s.pools| && s.reactors[r].phase.Leased? && Flows(s)
    ensures
      var task, pool := s.reactors[r].phase.task, s.pools[k];
      Flows(s.(pools := s.pools[k := pool.(queue := pool.queue + [task], accepted := pool.accepted + [task])],
               reactors := s.reactors[r := s.reactors[r].(phase := SignalDue(k))]))
  {
    var task, pool := s.reactors[r].phase.task, s.pools[k];
    var pool' := pool.(queue := pool.queue + [task], accepted := pool.accepted + [task]);
    PoolOffered(pool, task);
    SumGain(HeldByPool, s.pools, k, pool', multiset{task});
    SumGain(AcceptedBy, s.pools, k, pool', multiset{task});
    SumSame(NotifiedTo, s.reactors, r, s.reactors[r].(phase := SignalDue(k)));
    Assoc(Sum(NotifiedTo, s.reactors), Sum(HeldByPool, s.pools), multiset{task});
  }

  lemma Assoc<T>(a: multiset<T>, b: multiset<T>, d: multiset<T>)
    ensures a + (b + d) == (a + b) + d
  {
  }

  lemma NotifyFlows(c: Config, s: State, k: nat, w: nat)
    requires Shape(c, s) && Homed(c, s) && Enabled(c, s, NotifyDone(k, w)) && Flows(s)
    ensures Flows(DoNotify(s, k, w))
  {
    hide Homed;
    NotifyMoves(c, s, k, w);
    var pool := s.pools[k];
    var task := pool.workers[w].task;
    PoolReleased(pool, w, Ready);
    PoolReleased(pool, w, Notifying(task.rid));
    var s' := DoNotify(s, k, w);
    SumLoss(HeldByPool, s.pools, k, s'.pools[k], multiset{task});
    SumSame(AcceptedBy, s.pools, k, s'.pools[k]);
    SumGain(NotifiedTo, s.reactors, task.rid, s'.reactors[task.rid], multiset{task});
    Regroup(Sum(NotifiedTo, s.reactors), Sum(HeldByPool, s'.pools), multiset{task});
  }

  lemma CheckFlows(c: Config, s: State, k: nat, w: nat)
    requires Shape(c, s) && Enabled(c, s, CheckQueue(k, w)) && Flows(s)
    ensures Flows(DoCheck(s, k, w))
  {
    var s' := DoCheck(s, k, w);
    SumSame(AcceptedBy, s.pools, k, s'.pools[k]);
    if s.pools[k].queue == [] {
      WorkerChange(s, k, w, s'.pools[k].workers[w]);
    } else {
      PoolPopped(s.pools[k], w);
      SumSame(HeldByPool, s.pools, k, s'.pools[k]);
    }
  }

  /** Steps that neither accept, pop nor hand over a task. */
  lemma PoolsFlow(s: State, s': State, k: nat)
    requires k < |s.pools| && |s'.pools| == |s.pools| && s'.pools == s.pools[k := s'.pools[k]] && Flows(s)
    requires Sum(NotifiedTo, s'.reactors) == Sum(NotifiedTo, s.reactors)
    requires s'.pools[k].queue == s.pools[k].queue && s'.pools[k].accepted == s.pools[k].accepted
    requires Sum(HeldByWorker, s'.pools[k].workers) == Sum(HeldByWorker, s.pools[k].workers)
    ensures Flows(s')
  {
    SumSame(HeldByPool, s.pools, k, s'.pools[k]);
    SumSame(AcceptedBy, s.pools, k, s'.pools[k]);
  }

  lemma WorkerFlows(c: Config, s: State, step: Step)
    requires Shape(c, s) && Enabled(c, s, step) && Flows(s)
    requires step.SignalPool? || step.WakeSpuriously? || step.WriteEvent? || step.RaiseShutdown? || step.BroadcastShutdown?
    ensures Flows(Apply(c, s, step))
  {
    hide Sum, Flows;
    var s' := Apply(c, s, step);
    match step {
      case SignalPool(r, w) =>
        var k := s.reactors[r].phase.pool;
        SumSame(NotifiedTo, s.reactors, r, s'.reactors[r]);
        if AnyAsleep(s.pools[k].workers) { SumSame(HeldByWorker, s.pools[k].workers, w, Woken); }
        PoolsFlow(s, s', k);
      case WakeSpuriously(k, w) =>
        SumSame(HeldByWorker, s.pools[k].workers, w, Woken);
        PoolsFlow(s, s', k);
      case WriteEvent(k, w) =>
        var rid := s.pools[k].workers[w].rid;
        SumSame(NotifiedTo, s.reactors, rid, s'.reactors[rid]);
        SumSame(HeldByWorker, s.pools[k].workers, w, Ready);
        PoolsFlow(s, s', k);
      case RaiseShutdown => PoolsFlow(s, s', s'.main.pool);
      case BroadcastShutdown =>
        WakeAllHolds(s.pools[s.main.pool].workers);
        PoolsFlow(s, s', s.main.pool);
    }
  }

  lemma ReactorFlows(s: State, s': State, r: nat)
    requires r < |s.reactors| && |s'.reactors| == |s.reactors| && s'.reactors == s.reactors[r := s'.reactors[r]]
    requires s'.reactors[r].notified == s.reactors[r].notified && s'.pools == s.pools && Flows(s)
    ensures Flows(s')
  {
    SumSame(NotifiedTo, s.reactors, r, s'.reactors[r]);
  }

  lemma FlowsKept(c: Config, s: State, step: Step)
    requires Shape(c, s) && Homed(c, s) && Enabled(c, s, step) && Flows(s)
    ensures Flows(Apply(c, s, step))
  {
    hide Sum, Homed, Flows;
    var s' := Apply(c, s, step);
    match step {
      case OfferTask(r, k) =>
        if Accepts(s.pools[k].shutdown, c.queueLimit, |s.pools[k].queue|) { AcceptFlows(s, r, k); }
        else { ReactorFlows(s, s', r); }
      case CheckQueue(k, w) => CheckFlows(c, s, k, w);
      case NotifyDone(k, w) => NotifyFlows(c, s, k, w);
      case LeaseTask(r) => ReactorFlows(s, s', r);
      case GiveUp(r) => ReactorFlows(s, s', r);
      case ReadEvent(r) => ReactorFlows(s, s', r);
      case TakeBatch(r) => ReactorFlows(s, s', r);
      case ProcessNext(r) => ReactorFlows(s, s', r);
      case MarkFree(r) => ReactorFlows(s, s', r);
      case DepositTask(r) => ReactorFlows(s, s', r);
      case HaltReactor(r) => ReactorFlows(s, s', r);
      case JoinWorkers => SameFlow(s, s');
      case PollReactor => SameFlow(s, s');
      case _ => WorkerFlows(c, s, step);
    }
  }

  lemma SameFlow(s: State, s': State)
    requires Flows(s) && s'.pools == s.pools && s'.reactors == s.reactors
    ensures Flows(s')
  {
  }

  // ---------- every run ----------

  ghost predicate Orderly(c: Config, s: State) {
    Owned(c, s) && Awake(c, s) && Staged(c, s) && Flows(s)
  }

  lemma InitFlows(c: Config)
    ensures Flows(Init(c))
  {
    var s := Init(c);
    InitHoldsNothing(c);
    SumEmpty(AcceptedBy, s.pools);
    SumEmpty(NotifiedTo, s.reactors);
    assert Sum(HeldByPool, s.pools) == multiset{} by {
      assert Sum(HeldByReactor, s.reactors) + Sum(HeldByPool, s.pools) == multiset{};
    }
  }

  lemma {:induction false} RunIsOrderly(c: Config, run: seq<Step>)
    requires Legal(c, run)
    ensures Orderly(c, Exec(c, run))
    decreases |run|
  {
    hide Apply, Enabled, Owned, Awake, Flows;
    OwnershipHolds(c, run);
    WakeupsAreNeverLost(c, run);
    if run == [] {
      InitFlows(c);
    } else {
      var last := |run| - 1;
      RunIsOrderly(c, run[..last]);
      OwnedIsHomed(c, Exec(c, run[..last]));
      StagedKept(c, Exec(c, run[..last]), run[last]);
      FlowsKept(c, Exec(c, run[..last]), run[last]);
    }
  }

  lemma OwnedIsHomed(c: Config, s: State)
    requires Owned(c, s)
    ensures Shape(c, s) && Homed(c, s)
  {
  }

  // ---------- what a stopped server guarantees ----------

  lemma {:induction false} ExitedHoldNothing(workers: seq<Worker>)
    requires AllExited(workers)
    ensures Sum(HeldByWorker, workers) == multiset{}
  {
    SumEmpty(HeldByWorker, workers);
  }

  lemma JoinedPoolIsEmpty(main: Main, k: nat, pool: Pool)
    requires PoolStage(main, k, pool) && Joined(main) && |pool.workers| > 0
    ensures pool.queue == [] && pool.shutdown && HeldByPool(pool) == multiset{}
  {
    assert pool.workers[0].Exited?;
    ExitedHoldNothing(pool.workers);
  }

  /** Tickets delivered to other reactors do not count for t's own reactor. */
  lemma {:induction false} DeliveredHome(reactors: seq<Reactor>, base: nat, t: Ticket)
    requires forall r :: 0 <= r < |reactors| ==> AllHomed(base + r, reactors[r].notified)
    ensures Sum(NotifiedTo, reactors)[t] ==
      if base <= t.rid < base + |reactors| then multiset(reactors[t.rid - base].notified)[t] else 0
    decreases |reactors|
  {
    hide AllHomed;
    if reactors != [] {
      forall r | 0 <= r < |reactors[1..]| ensures AllHomed(base + 1 + r, reactors[1..][r].notified) {
        assert reactors[1..][r] == reactors[r + 1];
      }
      DeliveredHome(reactors[1..], base + 1, t);
      StrangerIsNotThere(base, reactors[0].notified, t);
      if base < t.rid < base + |reactors| {
        assert reactors[1..][t.rid - (base + 1)] == reactors[t.rid - base];
      }
    }
  }

  lemma StrangerIsNotThere(r: nat, tasks: seq<Ticket>, t: Ticket)
    requires AllHomed(r, tasks)
    ensures t.rid != r ==> multiset(tasks)[t] == 0
  {
    assert t.rid != r ==> t !in tasks;
  }

  lemma NothingInPools(s: State)
    requires |s.pools| == 2
    requires forall k :: 0 <= k < 2 ==> HeldByPool(s.pools[k]) == multiset{}
    ensures Sum(HeldByPool, s.pools) == multiset{}
  {
    SumEmpty(HeldByPool, s.pools);
  }

  /** Main result: once the workers are joined, both queues are empty, no worker holds a task, every
      offer is refused, and every task ever accepted was handed to its own reactor's completion queue
      exactly as often as it was accepted. Both pools having a worker is what the split guarantees. */
  lemma AcceptedWorkIsDelivered(c: Config, run: seq<Step>, t: Ticket)
    requires Legal(c, run) && c.fastWorkers >= 1 && c.slowWorkers >= 1
    requires Joined(Exec(c, run).main)
    requires t.rid < c.reactors
    ensures var s := Exec(c, run);
      && |s.pools| == 2 && |s.reactors| == c.reactors
      && (forall k :: 0 <= k < 2 ==>
            && s.pools[k].queue == []
            && AllExited(s.pools[k].workers)
            && !Accepts(s.pools[k].shutdown, c.queueLimit, |s.pools[k].queue|))
      && Sum(AcceptedBy, s.pools)[t] == multiset(s.reactors[t.rid].notified)[t]
  {
    hide Exec, Legal, Owned, Awake, Sum;
    RunIsOrderly(c, run);
    var s := Exec(c, run);
    forall k | 0 <= k < 2 ensures s.pools[k].queue == [] && s.pools[k].shutdown && HeldByPool(s.pools[k]) == multiset{} {
      JoinedPoolIsEmpty(s.main, k, s.pools[k]);
    }
    NothingInPools(s);
    forall r | 0 <= r < |s.reactors| ensures AllHomed(0 + r, s.reactors[r].notified) {
      assert ReactorStage(s.main, r, s.reactors[r]);
    }
    DeliveredHome(s.reactors, 0, t);
  }

  predicate SeenEmpty(main: Main, r: nat) {
    main.Breaking? || (main.Polling? && r < main.next)
  }

  lemma PollingAdvances(c: Config, s: State, step: Step, r: nat)
    requires Enabled(c, s, step) && SeenEmpty(s.main, r)
    ensures SeenEmpty(Apply(c, s, step).main, r)
  {
  }

  lemma SeenEmptyIsEmpty(c: Config, s: State, r: nat)
    requires Staged(c, s) && r < c.reactors && SeenEmpty(s.main, r)
    ensures s.reactors[r].completed == []
  {
    assert ReactorStage(s.main, r, s.reactors[r]);
  }

  /** A completion queue that `server_drain_reactor_queues` saw empty is empty in every later state. */
  lemma {:induction false} SeenEmptyStaysEmpty(c: Config, run: seq<Step>, more: seq<Step>, r: nat)
    requires Legal(c, run) && Legal(c, run + more) && r < c.reactors
    requires SeenEmpty(Exec(c, run).main, r)
    ensures SeenEmpty(Exec(c, run + more).main, r)
    ensures r < |Exec(c, run + more).reactors| && Exec(c, run + more).reactors[r].completed == []
    decreases |more|
  {
    hide Owned, Awake, Flows, Staged, Apply, Enabled, SeenEmpty;
    RunIsOrderly(c, run + more);
    if more == [] {
      assert run + more == run;
    } else {
      var last := |more| - 1;
      assert (run + more)[..|run| + last] == run + more[..last];
      assert |run + more| - 1 == |run| + last;
      SeenEmptyStaysEmpty(c, run, more[..last], r);
      PollingAdvances(c, Exec(c, run + more[..last]), more[last], r);
    }
    StagedShape(c, Exec(c, run + more));
    SeenEmptyIsEmpty(c, Exec(c, run + more), r);
  }

  lemma StagedShape(c: Config, s: State)
    requires Staged(c, s)
    ensures Shape(c, s)
  {
  }

  /** While the drain waits for reactor r's queue, that reactor runs and its eventfd is readable or it
      is about to take the queue: the wait does not depend on anybody else. */
  lemma DrainIsNotStuck(c: Config, run: seq<Step>, r: nat)
    requires Legal(c, run) && r < c.reactors
    requires Joined(Exec(c, run).main)
    requires |Exec(c, run).reactors| == c.reactors && Exec(c, run).reactors[r].completed != []
    ensures var s := Exec(c, run);
      && !s.reactors[r].phase.Halted?
      && (s.reactors[r].phase.Reading? || s.reactors[r].eventfd > 0)
  {
    hide Exec, Legal, Owned, Flows, Sum, NoneStranded;
    RunIsOrderly(c, run);
    var s := Exec(c, run);
    assert ReactorStage(s.main, r, s.reactors[r]);
    assert Announced(s, r);
    JoinedNotifiesNobody(c, s, r);
  }

  lemma JoinedNotifiesNobody(c: Config, s: State, r: nat)
    requires Staged(c, s) && Joined(s.main)
    ensures !NotifierFor(s, r)
  {
    forall k: nat, w: nat | AtWorker(s, k, w) ensures s.pools[k].workers[w] != Notifying(r) {
      assert PoolStage(s.main, k, s.pools[k]);
    }
  }

  lemma IdleReactorHoldsNothing(main: Main, r: nat, reactor: Reactor)
    requires ReactorStage(main, r, reactor) && reactor.phase.Halted?
    ensures HeldByReactor(reactor) == multiset{}
  {
  }

  /** When the last reactor has halted, no task is out: all of the slab is on the stack or in a cache,
      and every lease ever made was returned exactly once. */
  lemma HaltedServerIsWhole(c: Config, run: seq<Step>, t: Ticket)
    requires Legal(c, run) && c.reactors >= 1 && c.fastWorkers >= 1 && c.slowWorkers >= 1
    requires var s := Exec(c, run); |s.reactors| == c.reactors && forall r :: 0 <= r < c.reactors ==> s.reactors[r].phase.Halted?
    ensures var s := Exec(c, run);
      && Out(s) == multiset{}
      && |InSlab(s)| == c.slab
      && LentTimes(s.log, t) == ReturnedTimes(s.log, t)
  {
    hide Exec, Legal, Owned, Awake, Flows, Sum;
    RunIsOrderly(c, run);
    ReturnedExactlyOnce(c, run, t);
    var s := Exec(c, run);
    assert ReactorStage(s.main, 0, s.reactors[0]);
    forall k | 0 <= k < 2 ensures HeldByPool(s.pools[k]) == multiset{} {
      JoinedPoolIsEmpty(s.main, k, s.pools[k]);
    }
    NothingInPools(s);
    forall r | 0 <= r < |s.reactors| ensures HeldByReactor(s.reactors[r]) == multiset{} {
      IdleReactorHoldsNothing(s.main, r, s.reactors[r]);
    }
    SumEmpty(HeldByReactor, s.reactors);
    OwnedBalance(c, s);
  }

  lemma OwnedBalance(c: Config, s: State)
    requires Owned(c, s)
    ensures |InSlab(s)| + |Out(s)| == c.slab
  {
  }

  // ---------- the workers' part of the shutdown terminates ----------

  function Rank(worker: Worker): nat {
    match worker
    case Exited => 0
    case Running(_) => 3
    case Notifying(_) => 2
    case _ => 1
  }

  function Effort(workers: seq<Worker>): nat {
    if workers == [] then 0 else Rank(workers[0]) + Effort(workers[1..])
  }

  lemma {:induction false} EffortUpdate(workers: seq<Worker>, w: nat, worker: Worker)
    requires w < |workers|
    ensures Effort(workers[w := worker]) + Rank(workers[w]) == Effort(workers) + Rank(worker)
  {
    if w == 0 {
      assert workers[w := worker][1..] == workers[1..];
    } else {
      assert workers[w := worker][1..] == workers[1..][w - 1 := worker];
      EffortUpdate(workers[1..], w - 1, worker);
    }
  }

  /** An upper bound on the steps the workers of a pool still take. */
  function WorkLeft(pool: Pool): nat {
    4 * |pool.queue| + Effort(pool.workers)
  }

  /** Whether the step is taken by a worker of pool k. */
  predicate ByWorkerOf(step: Step, k: nat) {
    (step.WakeSpuriously? || step.CheckQueue? || step.NotifyDone? || step.WriteEvent?) && step.k == k
  }

  /** After the broadcast every worker step uses up work, and nothing adds any. */
  lemma StoppedPoolWindsDown(c: Config, s: State, step: Step, k: nat)
    requires Staged(c, s) && Enabled(c, s, step) && k < 2 && Sent(s.main, k)
    ensures Sent(Apply(c, s, step).main, k)
    ensures k < |Apply(c, s, step).pools| && WorkLeft(Apply(c, s, step).pools[k]) + (if ByWorkerOf(step, k) then 1 else 0) <= WorkLeft(s.pools[k])
  {
    hide ReactorStage, PoolStage;
    assert PoolStage(s.main, k, s.pools[k]);
    if ByWorkerOf(step, k) {
      WorkerUsesWork(c, s, step, k);
    } else {
      OthersAddNoWork(c, s, step, k);
    }
  }

  lemma WorkerUsesWork(c: Config, s: State, step: Step, k: nat)
    requires Shape(c, s) && Enabled(c, s, step) && ByWorkerOf(step, k)
    requires PoolStage(s.main, k, s.pools[k]) && Sent(s.main, k)
    ensures Apply(c, s, step).main == s.main && k < |Apply(c, s, step).pools|
    ensures WorkLeft(Apply(c, s, step).pools[k]) < WorkLeft(s.pools[k])
  {
    hide Effort;
    SentIsRaised(s.main, k);
    var pool, pool' := s.pools[k], Apply(c, s, step).pools[k];
    EffortUpdate(pool.workers, step.w, pool'.workers[step.w]);
  }

  lemma OthersAddNoWork(c: Config, s: State, step: Step, k: nat)
    requires Shape(c, s) && Enabled(c, s, step) && !ByWorkerOf(step, k) && k < 2
    requires PoolStage(s.main, k, s.pools[k]) && Sent(s.main, k)
    ensures Sent(Apply(c, s, step).main, k) && k < |Apply(c, s, step).pools|
    ensures WorkLeft(Apply(c, s, step).pools[k]) <= WorkLeft(s.pools[k])
  {
    hide Effort;
    SentIsRaised(s.main, k);
  }

  function WorkerSteps(run: seq<Step>, k: nat): nat {
    if run == [] then 0 else WorkerSteps(run[..|run| - 1], k) + if ByWorkerOf(run[|run| - 1], k) then 1 else 0
  }

  /** Main result: however the run goes on after the broadcast, with requests still arriving, the
      workers of a pool take at most `WorkLeft` further steps before all of them have left. */
  lemma {:induction false} ShutdownTerminates(c: Config, run: seq<Step>, more: seq<Step>, k: nat)
    requires Legal(c, run) && Legal(c, run + more) && k < 2
    requires Sent(Exec(c, run).main, k)
    ensures Sent(Exec(c, run + more).main, k)
    ensures k < |Exec(c, run).pools| && k < |Exec(c, run + more).pools|
    ensures WorkerSteps(more, k) + WorkLeft(Exec(c, run + more).pools[k]) <= WorkLeft(Exec(c, run).pools[k])
    decreases |more|
  {
    hide Owned, Awake, Flows, PoolStage, ReactorStage, Apply, Enabled;
    RunIsOrderly(c, run);
    if more == [] {
      assert run + more == run;
    } else {
      var last := |more| - 1;
      assert (run + more)[..|run| + last] == run + more[..last];
      assert |run + more| - 1 == |run| + last;
      ShutdownTerminates(c, run, more[..last], k);
      RunIsOrderly(c, run + more[..last]);
      StoppedPoolWindsDown(c, Exec(c, run + more[..last]), more[last], k);
    }
  }

  /** And until then each worker that has not left can take a step. */
  lemma StoppedWorkerCanMove(c: Config, run: seq<Step>, k: nat, w: nat)
    requires Legal(c, run) && k < 2 && Sent(Exec(c, run).main, k)
    requires AtWorker(Exec(c, run), k, w) && !Exec(c, run).pools[k].workers[w].Exited?
    ensures var s := Exec(c, run);
      Enabled(c, s, CheckQueue(k, w)) || Enabled(c, s, NotifyDone(k, w)) || Enabled(c, s, WriteEvent(k, w))
  {
    hide Exec, Legal, Awake, Flows, Sum, ReactorStage;
    RunIsOrderly(c, run);
    var s := Exec(c, run);
    assert PoolStage(s.main, k, s.pools[k]);
    assert HomedPool(c.reactors, s.pools[k]);
  }

  predicate Moving(worker: Worker) {
    !worker.Asleep? && !worker.Exited?
  }

  /** While serving, queued work is never stuck: with a task queued in a pool that has workers, a
      signal is about to be sent or some worker of that pool is awake. */
  lemma QueuedWorkProgresses(c: Config, run: seq<Step>, k: nat)
    requires Legal(c, run) && k < 2
    requires var s := Exec(c, run); |s.pools| == 2 && s.pools[k].queue != [] && |s.pools[k].workers| > 0
    ensures var s := Exec(c, run);
      || (exists r :: 0 <= r < |s.reactors| && s.reactors[r].phase == SignalDue(k))
      || (exists w :: 0 <= w < |s.pools[k].workers| && Moving(s.pools[k].workers[w]))
  {
    hide Exec, Legal, Owned, Flows, ReactorStage, Announced;
    RunIsOrderly(c, run);
    var s := Exec(c, run);
    assert NoneStranded(s, k);
    assert PoolStage(s.main, k, s.pools[k]);
    if AnyAsleep(s.pools[k].workers) {
      if Count(DueFor(k), s.reactors) > 0 {
        var r := CountFind(DueFor(k), s.reactors);
        assert s.reactors[r].phase == SignalDue(k);
      } else {
        var w := CountFind(IsWoken, s.pools[k].workers);
        assert Moving(s.pools[k].workers[w]);
      }
    } else {
      assert !s.pools[k].workers[0].Exited?;
      assert Moving(s.pools[k].workers[0]);
    }
  }
}
