/** No wake-up is lost, in any run: neither by signalling a worker pool after unlocking it, nor by
    coalescing eventfd writes; and both queues are first-in first-out. */
module Wakeups {
  import opened Tally
  import opened TaskSlab
  import opened WorkQueue
  import opened Pipeline
  import opened Ownership

  function DueFor(k: nat): Reactor -> bool {
    (reactor: Reactor) => reactor.phase == SignalDue(k)
  }

  function IsWoken(worker: Worker): bool {
    worker.Woken?
  }

  /** Signals still to be sent plus woken workers that have not looked at the queue yet. */
  function WakeupsUnderway(s: State, k: nat): nat
    requires k < |s.pools|
  {
    Count(DueFor(k), s.reactors) + Count(IsWoken, s.pools[k].workers)
  }

  /** Work conservation for one pool: if a worker sleeps, every queued task has a wake-up under way. */
  predicate NoneStranded(s: State, k: nat)
    requires k < |s.pools|
  {
    AnyAsleep(s.pools[k].workers) ==> |s.pools[k].queue| <= WakeupsUnderway(s, k)
  }

  ghost predicate NotifierFor(s: State, r: nat) {
    exists k: nat, w: nat :: AtWorker(s, k, w) && s.pools[k].workers[w] == Notifying(r)
  }

  /** A completion queue with tasks in it will be looked at: its eventfd is readable, a notifier is
      between unlock and write, or the reactor is between read and take. */
  ghost predicate Announced(s: State, r: nat)
    requires r < |s.reactors|
  {
    s.reactors[r].completed != [] ==>
      s.reactors[r].eventfd > 0 || s.reactors[r].phase.Reading? || NotifierFor(s, r)
  }

  /** A work queue holds what it accepted and has not handed out, oldest first, within its limit. */
  predicate PoolInOrder(c: Config, pool: Pool) {
    pool.accepted == pool.popped + pool.queue && (c.queueLimit > 0 ==> |pool.queue| <= c.queueLimit)
  }

  /** What is left of the batch a reactor walks. */
  function BatchLeft(phase: Phase): seq<Ticket> {
    match phase
    case Draining(batch) => batch
    case Freeing(_, rest) => rest
    case Marked(_, rest) => rest
    case _ => []
  }

  /** The drained batches, one after another, and the completion queue are the notify order, and replies
      are sent in that order. */
  predicate ReactorInOrder(reactor: Reactor) {
    && reactor.notified == reactor.taken + reactor.completed
    && reactor.taken == reactor.replied + BatchLeft(reactor.phase)
  }

  predicate InOrder(c: Config, s: State) {
    && (forall k :: 0 <= k < |s.pools| ==> PoolInOrder(c, s.pools[k]))
    && (forall r :: 0 <= r < |s.reactors| ==> ReactorInOrder(s.reactors[r]))
  }

  ghost predicate Awake(c: Config, s: State) {
    && Shape(c, s)
    && InOrder(c, s)
    && (forall k :: 0 <= k < |s.pools| ==> NoneStranded(s, k))
    && (forall r :: 0 <= r < |s.reactors| ==> Announced(s, r))
  }

  // ---------- queues stay in order ----------

  lemma PoolOrderKept(c: Config, s: State, step: Step, k: nat)
    requires Shape(c, s) && k < 2 && PoolInOrder(c, s.pools[k]) && Enabled(c, s, step)
    ensures k < |Apply(c, s, step).pools| && PoolInOrder(c, Apply(c, s, step).pools[k])
  {
    hide Alloc, Put, DoOffer, DoCheck;
    match step {
      case OfferTask(r, _) => OfferKeepsOrder(c, s, step.k, k, r);
      case CheckQueue(_, w) => CheckKeepsOrder(c, s, step.k, k, w);
      case _ =>
    }
  }

  lemma OfferKeepsOrder(c: Config, s: State, at: nat, k: nat, r: nat)
    requires k < |s.pools| && PoolInOrder(c, s.pools[k]) && Enabled(c, s, OfferTask(r, at))
    ensures k < |DoOffer(c, s, r, at).pools| && PoolInOrder(c, DoOffer(c, s, r, at).pools[k])
  {
    var pool, task := s.pools[k], s.reactors[r].phase.task;
    assert pool.popped + (pool.queue + [task]) == (pool.popped + pool.queue) + [task];
  }

  lemma CheckKeepsOrder(c: Config, s: State, at: nat, k: nat, w: nat)
    requires k < |s.pools| && PoolInOrder(c, s.pools[k]) && AtWorker(s, at, w)
    ensures k < |DoCheck(s, at, w).pools| && PoolInOrder(c, DoCheck(s, at, w).pools[k])
  {
    var pool := s.pools[k];
    if pool.queue != [] {
      assert (pool.popped + [pool.queue[0]]) + pool.queue[1..] == pool.popped + pool.queue;
    }
  }

  lemma ReactorOrderKept(c: Config, s: State, step: Step, r: nat)
    requires Shape(c, s) && r < c.reactors && ReactorInOrder(s.reactors[r]) && Enabled(c, s, step)
    ensures r < |Apply(c, s, step).reactors| && ReactorInOrder(Apply(c, s, step).reactors[r])
  {
    hide Alloc, Put, DoNotify, DoProcess, DoTake, ReactorInOrder;
    match step {
      case NotifyDone(k, w) => NotifyKeepsOrder(s, k, w, r);
      case ProcessNext(q) => ProcessKeepsOrder(s, q, r);
      case TakeBatch(q) => TakeKeepsOrder(s, q, r);
      case _ => OtherStepsKeepOrder(c, s, step, r);
    }
  }

  lemma NotifyKeepsOrder(s: State, k: nat, w: nat, r: nat)
    requires AtWorker(s, k, w) && s.pools[k].workers[w].Running? && r < |s.reactors| && ReactorInOrder(s.reactors[r])
    ensures r < |DoNotify(s, k, w).reactors| && ReactorInOrder(DoNotify(s, k, w).reactors[r])
  {
    var reactor, task := s.reactors[r], s.pools[k].workers[w].task;
    assert reactor.taken + (reactor.completed + [task]) == (reactor.taken + reactor.completed) + [task];
  }

  lemma ProcessKeepsOrder(s: State, q: nat, r: nat)
    requires q < |s.reactors| && s.reactors[q].phase.Draining? && r < |s.reactors| && ReactorInOrder(s.reactors[r])
    ensures r < |DoProcess(s, q).reactors| && ReactorInOrder(DoProcess(s, q).reactors[r])
  {
    var reactor, batch := s.reactors[q], s.reactors[q].phase.batch;
    if batch != [] {
      assert (reactor.replied + [batch[0]]) + batch[1..] == reactor.replied + batch;
    }
  }

  lemma TakeKeepsOrder(s: State, q: nat, r: nat)
    requires q < |s.reactors| && s.reactors[q].phase.Reading? && r < |s.reactors| && ReactorInOrder(s.reactors[r])
    ensures r < |DoTake(s, q).reactors| && ReactorInOrder(DoTake(s, q).reactors[r])
  {
    assert s.reactors[q].replied + [] == s.reactors[q].replied;
  }

  /** The other steps leave the histories and what is left of a batch alone. */
  lemma OtherStepsKeepOrder(c: Config, s: State, step: Step, r: nat)
    requires Enabled(c, s, step) && r < |s.reactors| && ReactorInOrder(s.reactors[r])
    requires !step.NotifyDone? && !step.ProcessNext? && !step.TakeBatch?
    ensures r < |Apply(c, s, step).reactors| && ReactorInOrder(Apply(c, s, step).reactors[r])
  {
    hide Alloc, Put;
    var reactor, reactor' := s.reactors[r], Apply(c, s, step).reactors[r];
    assert BatchLeft(reactor'.phase) == BatchLeft(reactor.phase);
  }

  lemma InOrderKept(c: Config, s: State, step: Step)
    requires Shape(c, s) && InOrder(c, s) && Enabled(c, s, step)
    ensures InOrder(c, Apply(c, s, step))
  {
    hide PoolInOrder, ReactorInOrder, Apply, Enabled;
    ShapeKept(c, s, step);
    var s' := Apply(c, s, step);
    forall k | 0 <= k < |s'.pools| ensures PoolInOrder(c, s'.pools[k]) {
      PoolOrderKept(c, s, step, k);
    }
    forall r | 0 <= r < |s'.reactors| ensures ReactorInOrder(s'.reactors[r]) {
      ReactorOrderKept(c, s, step, r);
    }
  }

  // ---------- worker pools ----------

  lemma {:induction false} WakeAllSleepsNone(workers: seq<Worker>)
    ensures !AnyAsleep(WakeAll(workers))
  {
  }

  /** A worker that did not sleep before the step and sleeps after it found the queue empty. */
  lemma CheckStrandsNone(c: Config, s: State, k: nat, w: nat)
    requires Shape(c, s) && Enabled(c, s, CheckQueue(k, w)) && NoneStranded(s, k)
    ensures NoneStranded(DoCheck(s, k, w), k)
  {
    var s' := DoCheck(s, k, w);
    var workers := s.pools[k].workers;
    CountUpdate(IsWoken, workers, w, s'.pools[k].workers[w]);
    if s.pools[k].queue != [] && AnyAsleep(s'.pools[k].workers) {
      SleeperWasThere(workers, w, s'.pools[k].workers[w]);
    }
  }

  lemma SleeperWasThere(workers: seq<Worker>, w: nat, worker: Worker)
    requires w < |workers| && !worker.Asleep? && AnyAsleep(workers[w := worker])
    ensures AnyAsleep(workers)
  {
    var v :| 0 <= v < |workers| && workers[w := worker][v].Asleep?;
    assert workers[v].Asleep?;
  }

  /** Replacing a worker that did not wait for the queue by one that does not sleep. */
  lemma WorkerStrandsNone(s: State, k: nat, w: nat, worker: Worker)
    requires AtWorker(s, k, w) && NoneStranded(s, k)
    requires !s.pools[k].workers[w].Woken? && !worker.Asleep?
    ensures NoneStranded(SetWorker(s, k, w, worker), k)
  {
    var workers := s.pools[k].workers;
    CountUpdate(IsWoken, workers, w, worker);
    if AnyAsleep(workers[w := worker]) {
      SleeperWasThere(workers, w, worker);
    }
  }

  lemma SignalStrandsNone(c: Config, s: State, r: nat, w: nat, k: nat)
    requires Shape(c, s) && Enabled(c, s, SignalPool(r, w)) && k < 2 && NoneStranded(s, k)
    ensures NoneStranded(DoSignal(c, s, r, w), k)
  {
    var pool := s.reactors[r].phase.pool;
    CountUpdate(DueFor(k), s.reactors, r, s.reactors[r].(phase := Idle));
    if pool == k && AnyAsleep(s.pools[k].workers) {
      CountUpdate(IsWoken, s.pools[k].workers, w, Woken);
    }
  }

  lemma OfferStrandsNone(c: Config, s: State, r: nat, target: nat, k: nat)
    requires Shape(c, s) && Enabled(c, s, OfferTask(r, target)) && k < 2 && NoneStranded(s, k)
    ensures NoneStranded(DoOffer(c, s, r, target), k)
  {
    CountUpdate(DueFor(k), s.reactors, r, s.reactors[r].(phase := SignalDue(target)));
    CountUpdate(DueFor(k), s.reactors, r, s.reactors[r].(phase := Freeing(s.reactors[r].phase.task, [])));
  }

  lemma OtherReactor(s: State, s': State, r: nat, k: nat)
    requires k < |s.pools| && r < |s.reactors| && NoneStranded(s, k)
    requires s'.pools == s.pools && |s'.reactors| == |s.reactors| && s'.reactors == s.reactors[r := s'.reactors[r]]
    requires !s.reactors[r].phase.SignalDue?
    ensures NoneStranded(s', k)
  {
    CountUpdate(DueFor(k), s.reactors, r, s'.reactors[r]);
  }

  lemma NotifyStrandsNone(c: Config, s: State, step: Step, k: nat)
    requires Shape(c, s) && Enabled(c, s, step) && k < 2 && NoneStranded(s, k)
    requires step.NotifyDone? || step.WriteEvent?
    ensures NoneStranded(Apply(c, s, step), k)
  {
    var s' := Apply(c, s, step);
    var worker := s.pools[step.k].workers[step.w];
    var rid := if worker.Running? then worker.task.rid else worker.rid;
    if rid < |s.reactors| {
      CountUpdate(DueFor(k), s.reactors, rid, s'.reactors[rid]);
    }
    if step.k == k {
      WorkerStrandsNone(s, k, step.w, s'.pools[k].workers[step.w]);
    }
  }

  lemma StrandsNoneKept(c: Config, s: State, step: Step, k: nat)
    requires Shape(c, s) && Enabled(c, s, step) && k < 2 && NoneStranded(s, k)
    ensures NoneStranded(Apply(c, s, step), k)
  {
    hide Count;
    var s' := Apply(c, s, step);
    match step {
      case OfferTask(r, target) => OfferStrandsNone(c, s, r, target, k);
      case SignalPool(r, w) => SignalStrandsNone(c, s, r, w, k);
      case WakeSpuriously(k', w) => if k' == k { WorkerStrandsNone(s, k, w, Woken); }
      case CheckQueue(k', w) => if k' == k { CheckStrandsNone(c, s, k, w); }
      case NotifyDone(_, _) => NotifyStrandsNone(c, s, step, k);
      case WriteEvent(_, _) => NotifyStrandsNone(c, s, step, k);
      case RaiseShutdown =>
      case BroadcastShutdown => WakeAllSleepsNone(s.pools[s.main.pool].workers);
      case JoinWorkers =>
      case PollReactor =>
      case MarkFree(r) => OtherReactor(s, s', r, k);
      case DepositTask(r) => OtherReactor(s, s', r, k);
      case LeaseTask(r) => OtherReactor(s, s', r, k);
      case GiveUp(r) => OtherReactor(s, s', r, k);
      case ReadEvent(r) => OtherReactor(s, s', r, k);
      case TakeBatch(r) => OtherReactor(s, s', r, k);
      case ProcessNext(r) => OtherReactor(s, s', r, k);
      case HaltReactor(r) => OtherReactor(s, s', r, k);
    }
  }

  // ---------- completion queues ----------

  /** A notifier stays until it writes. */
  lemma NotifierStays(c: Config, s: State, step: Step, r: nat)
    requires Shape(c, s) && Enabled(c, s, step) && NotifierFor(s, r)
    requires step.WriteEvent? ==> s.pools[step.k].workers[step.w].rid != r
    ensures NotifierFor(Apply(c, s, step), r)
  {
    hide Apply, Enabled;
    var k: nat, w: nat :| AtWorker(s, k, w) && s.pools[k].workers[w] == Notifying(r);
    if ByReactor(step) {
      ReactorLeavesPools(c, s, step);
    } else {
      WorkerKeepsNotifying(c, s, step, r, k, w);
    }
    assert AtWorker(Apply(c, s, step), k, w);
  }

  lemma ReactorLeavesPools(c: Config, s: State, step: Step)
    requires Enabled(c, s, step) && ByReactor(step)
    ensures Apply(c, s, step).pools == s.pools
  {
    hide Alloc, Put;
  }

  lemma WorkerKeepsNotifying(c: Config, s: State, step: Step, r: nat, k: nat, w: nat)
    requires Enabled(c, s, step) && !ByReactor(step) && AtWorker(s, k, w) && s.pools[k].workers[w] == Notifying(r)
    requires step.WriteEvent? ==> s.pools[step.k].workers[step.w].rid != r
    ensures AtWorker(Apply(c, s, step), k, w) && Apply(c, s, step).pools[k].workers[w] == Notifying(r)
  {
  }

  lemma AnnouncedKept(c: Config, s: State, step: Step, r: nat)
    requires Shape(c, s) && Enabled(c, s, step) && r < c.reactors && Announced(s, r)
    ensures r < |Apply(c, s, step).reactors| && Announced(Apply(c, s, step), r)
  {
    hide NotifierFor;
    ShapeKept(c, s, step);
    var s' := Apply(c, s, step);
    if s'.reactors[r].completed != [] {
      if step.NotifyDone? && s.reactors[r].completed == [] {
        NewNotifier(s, step.k, step.w, r);
      } else if NotifierFor(s, r) && !(step.WriteEvent? && s.pools[step.k].workers[step.w].rid == r) {
        NotifierStays(c, s, step, r);
      }
    }
  }

  lemma NewNotifier(s: State, k: nat, w: nat, r: nat)
    requires AtWorker(s, k, w) && s.pools[k].workers[w].Running? && r < |s.reactors|
    requires s.reactors[r].completed == [] && DoNotify(s, k, w).reactors[r].completed != []
    ensures NotifierFor(DoNotify(s, k, w), r)
  {
    var s' := DoNotify(s, k, w);
    assert AtWorker(s', k, w) && s'.pools[k].workers[w] == Notifying(r);
  }

  // ---------- every run ----------

  lemma AwakeKept(c: Config, s: State, step: Step)
    requires Awake(c, s) && Enabled(c, s, step)
    ensures Awake(c, Apply(c, s, step))
  {
    hide InOrder, NoneStranded, Announced;
    ShapeKept(c, s, step);
    InOrderKept(c, s, step);
    var s' := Apply(c, s, step);
    forall k | 0 <= k < |s'.pools| ensures NoneStranded(s', k) {
      StrandsNoneKept(c, s, step, k);
    }
    forall r | 0 <= r < |s'.reactors| ensures Announced(s', r) {
      AnnouncedKept(c, s, step, r);
    }
  }

  /** Main result: in every reachable state, whenever a worker of a pool sleeps the queued tasks are
      covered by pending signals and woken workers; a non-empty completion queue is always announced;
      every queue hands out exactly what it was given, in that order, and stays within its limit. */
  lemma {:induction false} WakeupsAreNeverLost(c: Config, run: seq<Step>)
    requires Legal(c, run)
    ensures Awake(c, Exec(c, run))
    decreases |run|
  {
    hide Apply, Enabled;
    if run != [] {
      var last := |run| - 1;
      WakeupsAreNeverLost(c, run[..last]);
      AwakeKept(c, Exec(c, run[..last]), run[last]);
    }
  }
}
