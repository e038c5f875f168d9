/** When the slab can run dry: a bound that ties the slab size chosen at start-up to the queue limit,
    the worker threads and the tasks stranded in thread caches. */
module Exhaustion {
  import opened Tally
  import opened TaskSlab
  import opened Pipeline
  import opened Ownership
  import opened Wakeups
  import opened Shutdown
  import Sizing

  /** The configuration `server_start` builds from the core count and the settings. */
  function Deploy(onlineCores: int, threads: nat, percentage: nat, queueLimit: nat): (c: Config)
    requires percentage <= 100
    ensures 1 <= c.reactors <= 64
    ensures c.fastWorkers >= 1 && c.slowWorkers >= 1
    ensures c.reactors == (if 1 <= onlineCores <= 64 then onlineCores else 4) && c.queueLimit == queueLimit
    ensures var workers := if threads > 0 then threads else 2 * c.reactors;
      && c.fastWorkers + c.slowWorkers == (if workers == 1 then 2 else workers)
      && c.slab == 2 * (if queueLimit == 0 then 100000 else queueLimit) + workers + 10000
  {
    var reactors := Sizing.Reactors(onlineCores);
    var workers := Sizing.BackgroundWorkers(threads, reactors);
    var split := Sizing.SplitWorkers(workers, percentage);
    Config(reactors, split.fast, split.slow, Sizing.SlabSize(queueLimit, workers), queueLimit)
  }

  /** Tasks on the reactor side: just leased, completed, or in a drained batch. */
  function OnReactorSide(s: State): multiset<Ticket> {
    Sum(HeldByReactor, s.reactors)
  }

  lemma PoolHoldsAtMost(pool: Pool)
    ensures |HeldByPool(pool)| <= |pool.queue| + |pool.workers|
  {
    forall w | 0 <= w < |pool.workers| ensures |HeldByWorker(pool.workers[w])| <= 1 {
    }
    SumSize(HeldByWorker, pool.workers, 1);
  }

  lemma PoolsHoldAtMost(s: State)
    requires |s.pools| == 2
    ensures |Sum(HeldByPool, s.pools)| <=
      |s.pools[FAST].queue| + |s.pools[FAST].workers| + |s.pools[SLOW].queue| + |s.pools[SLOW].workers|
  {
    PoolHoldsAtMost(s.pools[FAST]);
    PoolHoldsAtMost(s.pools[SLOW]);
    assert s.pools[1..] == [s.pools[SLOW]];
    assert s.pools[1..][1..] == [];
    assert Sum(HeldByPool, s.pools[1..][1..]) == multiset{};
    assert Sum(HeldByPool, s.pools) == HeldByPool(s.pools[FAST]) + Sum(HeldByPool, s.pools[1..]);
  }

  lemma CachesStrandAtMost(c: Config, s: State, r: nat)
    requires Shape(c, s) && r < c.reactors && s.reactors[r].cache == []
    ensures |Sum(CacheOf, s.reactors)| <= CACHE_SIZE * (c.reactors - 1)
  {
    forall q | 0 <= q < |s.reactors| ensures |CacheOf(s.reactors[q])| <= CACHE_SIZE {
    }
    SumSizeButOne(CacheOf, s.reactors, CACHE_SIZE, r);
  }

  /** In any reachable state in which reactor r's allocation fails, all tasks but the ones stranded in
      other caches are on the reactor side, queued, or in a worker's hand. */
  lemma ExhaustedAccounts(c: Config, run: seq<Step>, r: nat)
    requires Legal(c, run) && Enabled(c, Exec(c, run), LeaseTask(r))
    requires var s := Exec(c, run); Alloc(Shelf(s.stack, s.reactors[r].cache, s.marked)).1.Exhausted?
    ensures var s := Exec(c, run);
      && |s.pools| == 2 && c.reactors >= 1
      && |OnReactorSide(s)| + |s.pools[FAST].queue| + |s.pools[SLOW].queue| >=
           c.slab - c.fastWorkers - c.slowWorkers - CACHE_SIZE * (c.reactors - 1)
  {
    hide Exec, Legal, Awake, Flows, Staged, Sum, Homed, OnePlaceEach, FlagsClear, Sound, OnLoan;
    RunIsOrderly(c, run);
    var s := Exec(c, run);
    AllocConserves(Shelf(s.stack, s.reactors[r].cache, s.marked));
    CachesStrandAtMost(c, s, r);
    PoolsHoldAtMost(s);
  }

  /** Main result: a deployed server with a queue limit answers "too busy" for lack of tasks only when
      at least 5967 tasks are on the reactor side. */
  lemma ExhaustionNeedsReactorBacklog(onlineCores: int, threads: nat, percentage: nat, queueLimit: nat, run: seq<Step>, r: nat)
    requires percentage <= 100 && queueLimit > 0
    requires var c := Deploy(onlineCores, threads, percentage, queueLimit); Legal(c, run) && Enabled(c, Exec(c, run), LeaseTask(r))
    requires var s := Exec(Deploy(onlineCores, threads, percentage, queueLimit), run);
      Alloc(Shelf(s.stack, s.reactors[r].cache, s.marked)).1.Exhausted?
    ensures |OnReactorSide(Exec(Deploy(onlineCores, threads, percentage, queueLimit), run))| >= 5967
  {
    hide Exec, Legal, Owned, Flows, Staged, Sum, NoneStranded, Announced;
    var c := Deploy(onlineCores, threads, percentage, queueLimit);
    ExhaustedAccounts(c, run, r);
    RunIsOrderly(c, run);
    assert InOrder(c, Exec(c, run));
    assert CACHE_SIZE * (c.reactors - 1) <= 64 * 63;
  }

  /** With the limit switched off the queues themselves may fill the slab; the same accounting then
      bounds queued and reactor-side tasks together. */
  lemma ExhaustionWithoutLimit(onlineCores: int, threads: nat, percentage: nat, run: seq<Step>, r: nat)
    requires percentage <= 100
    requires var c := Deploy(onlineCores, threads, percentage, 0); Legal(c, run) && Enabled(c, Exec(c, run), LeaseTask(r))
    requires var s := Exec(Deploy(onlineCores, threads, percentage, 0), run);
      Alloc(Shelf(s.stack, s.reactors[r].cache, s.marked)).1.Exhausted?
    ensures var s := Exec(Deploy(onlineCores, threads, percentage, 0), run);
      |s.pools| == 2 && |OnReactorSide(s)| + |s.pools[FAST].queue| + |s.pools[SLOW].queue| >= 205967
  {
    hide Exec, Legal, Sum;
    var c := Deploy(onlineCores, threads, percentage, 0);
    ExhaustedAccounts(c, run, r);
    assert CACHE_SIZE * (c.reactors - 1) <= 64 * 63;
  }
}
