/** The bound of `Exhaustion` cannot be improved: for every queue limit a deployed server has a run that
    ends with the slab exhausted and exactly 5967 tasks on the reactor side. */
module Attained {
  import opened Tally
  import opened TaskSlab
  import opened WorkQueue
  import opened Pipeline
  import opened Ownership
  import opened Exhaustion
  import Sizing

  // ---------- continuing a run ----------

  predicate Runs(c: Config, s: State, steps: seq<Step>)
    decreases |steps|
  {
    steps == [] || (Enabled(c, s, steps[0]) && Runs(c, Apply(c, s, steps[0]), steps[1..]))
  }

  function After(c: Config, s: State, steps: seq<Step>): State
    requires Runs(c, s, steps)
    decreases |steps|
  {
    if steps == [] then s else After(c, Apply(c, s, steps[0]), steps[1..])
  }

  lemma {:induction false} Continue(c: Config, run: seq<Step>, steps: seq<Step>)
    requires Legal(c, run) && Runs(c, Exec(c, run), steps)
    ensures Legal(c, run + steps) && Exec(c, run + steps) == After(c, Exec(c, run), steps)
    decreases |steps|
  {
    hide Apply, Enabled;
    if steps == [] {
      assert run + steps == run;
    } else {
      var next := run + [steps[0]];
      assert next[..|next| - 1] == run;
      Continue(c, next, steps[1..]);
      assert next + steps[1..] == run + steps;
    }
  }

  lemma {:induction false} RunsOn(c: Config, s: State, a: seq<Step>, b: seq<Step>)
    requires Runs(c, s, a) && Runs(c, After(c, s, a), b)
    ensures Runs(c, s, a + b) && After(c, s, a + b) == After(c, After(c, s, a), b)
    decreases |a|
  {
    hide Apply, Enabled;
    if a == [] {
      assert a + b == b;
    } else {
      RunsOn(c, Apply(c, s, a[0]), a[1..], b);
      assert (a + b)[1..] == a[1..] + b;
    }
  }

  lemma OneStep(c: Config, s: State, step: Step)
    requires Enabled(c, s, step)
    ensures Runs(c, s, [step]) && After(c, s, [step]) == Apply(c, s, step)
  {
    hide Apply, Enabled;
    assert [step][1..] == [];
  }

  /** Appends one enabled step. */
  lemma Then(c: Config, s: State, steps: seq<Step>, step: Step)
    requires Runs(c, s, steps) && Enabled(c, After(c, s, steps), step)
    ensures Runs(c, s, steps + [step]) && After(c, s, steps + [step]) == Apply(c, After(c, s, steps), step)
  {
    hide Apply, Enabled;
    OneStep(c, After(c, s, steps), step);
    RunsOn(c, s, steps, [step]);
  }

  // ---------- stranding tasks in a cache ----------

  /** Nothing but the allocator and reactor r's hands changed. */
  predicate OnlyReactor(s: State, s': State, r: nat) {
    && r < |s.reactors| && |s'.reactors| == |s.reactors| && !s'.aborted
    && s'.pools == s.pools && s'.main == s.main
    && (forall q :: 0 <= q < |s.reactors| && q != r ==> s'.reactors[q] == s.reactors[q])
    && s'.reactors[r].completed == s.reactors[r].completed
  }

  lemma LeaseFacts(s: State, r: nat)
    requires r < |s.reactors| && !s.aborted && |s.reactors[r].cache| <= CACHE_SIZE && |s.stack| + |s.reactors[r].cache| > 0
    ensures var s' := DoLease(s, r);
      && OnlyReactor(s, s', r) && s'.reactors[r].phase.Leased? && s'.reactors[r].phase.task.rid == r
      && s'.reactors[r].phase.task.id !in s'.marked
      && |s'.reactors[r].cache| < CACHE_SIZE
      && |s'.stack| + |s'.reactors[r].cache| + 1 == |s.stack| + |s.reactors[r].cache|
      && (s.reactors[r].cache == [] && |s.stack| >= CACHE_SIZE ==> |s'.stack| == |s.stack| - CACHE_SIZE)
  {
    hide Alloc;
    var shelf := Shelf(s.stack, s.reactors[r].cache, s.marked);
    AllocCounts(shelf);
  }

  lemma AllocCounts(shelf: Shelf)
    requires |shelf.cache| <= CACHE_SIZE && |shelf.stack| + |shelf.cache| > 0
    ensures var (after, lease) := Alloc(shelf);
      && lease.Lease? && lease.id !in after.marked && |after.cache| < CACHE_SIZE
      && |after.stack| + |after.cache| + 1 == |shelf.stack| + |shelf.cache|
      && (shelf.cache == [] && |shelf.stack| >= CACHE_SIZE ==> |after.stack| == |shelf.stack| - CACHE_SIZE)
  {
    AllocConserves(shelf);
  }

  /** A reactor that leases one task and gives it up at once keeps 64 tasks in its cache. */
  lemma StrandOne(c: Config, s: State, r: nat) returns (steps: seq<Step>)
    requires !s.aborted && r < |s.reactors| && s.reactors[r].phase.Idle? && s.reactors[r].cache == [] && |s.stack| >= CACHE_SIZE
    ensures Runs(c, s, steps)
    ensures var s' := After(c, s, steps);
      OnlyReactor(s, s', r) && s'.reactors[r].phase.Idle? && |s'.stack| == |s.stack| - CACHE_SIZE
  {
    hide Runs, After, DoLease;
    LeaseFacts(s, r);
    OneStep(c, s, LeaseTask(r));
    var s1 := DoLease(s, r);
    steps := [LeaseTask(r)];
    Then(c, s, steps, GiveUp(r));
    steps := steps + [GiveUp(r)];
    Then(c, s, steps, MarkFree(r));
    steps := steps + [MarkFree(r)];
    Then(c, s, steps, DepositTask(r));
    steps := steps + [DepositTask(r)];
    Then(c, s, steps, ProcessNext(r));
    steps := steps + [ProcessNext(r)];
  }

  /** Reactors 1 to n are idle with an empty cache. */
  predicate Fresh(s: State, n: nat) {
    n < |s.reactors| && forall q :: 1 <= q <= n ==> s.reactors[q].phase.Idle? && s.reactors[q].cache == []
  }

  /** Every reactor but the first holds no task. */
  predicate OthersIdle(s: State) {
    forall q :: 1 <= q < |s.reactors| ==> s.reactors[q].phase.Idle? && s.reactors[q].completed == []
  }

  lemma {:induction false} StrandAll(c: Config, s: State, n: nat) returns (steps: seq<Step>)
    requires !s.aborted && Fresh(s, n) && |s.stack| >= CACHE_SIZE * n && OthersIdle(s)
    ensures Runs(c, s, steps)
    ensures var s' := After(c, s, steps);
      && !s'.aborted && s'.pools == s.pools && s'.main == s.main && |s'.reactors| == |s.reactors|
      && s'.reactors[0] == s.reactors[0] && OthersIdle(s') && |s'.stack| == |s.stack| - CACHE_SIZE * n
    decreases n
  {
    hide Apply, Enabled;
    if n == 0 {
      steps := [];
    } else {
      var first := StrandOne(c, s, n);
      var rest := StrandAll(c, After(c, s, first), n - 1);
      RunsOn(c, s, first, rest);
      steps := first + rest;
    }
  }

  // ---------- one request ----------

  /** The first reactor is between callbacks; `free` tasks are within its reach and `done` completed. */
  predicate Level(c: Config, s: State, free: nat, done: nat) {
    && !s.aborted && |s.pools| == 2 && |s.reactors| == c.reactors && c.reactors >= 1
    && s.reactors[0].phase.Idle? && |s.reactors[0].cache| <= CACHE_SIZE
    && |s.stack| + |s.reactors[0].cache| == free && |s.reactors[0].completed| == done
    && OthersIdle(s)
    && !s.pools[FAST].shutdown && !s.pools[SLOW].shutdown
  }

  predicate PoolIs(pool: Pool, worker: Worker, queued: nat) {
    pool.workers == [worker] && |pool.queue| == queued
  }

  /** The first reactor's request is accepted by pool k and its signal finds nobody asleep. */
  lemma Submit(c: Config, s: State, k: nat, worker: Worker, queued: nat, free: nat, done: nat) returns (steps: seq<Step>)
    requires Level(c, s, free, done) && free > 0 && k < 2 && PoolIs(s.pools[k], worker, queued)
    requires (c.queueLimit == 0 || queued < c.queueLimit) && !worker.Asleep?
    ensures Runs(c, s, steps)
    ensures var s' := After(c, s, steps);
      && Level(c, s', free - 1, done) && s'.pools[1 - k] == s.pools[1 - k] && PoolIs(s'.pools[k], worker, queued + 1)
      && (queued == 0 ==> s'.pools[k].queue[0].rid == 0)
  {
    hide Runs, After, DoLease;
    LeaseFacts(s, 0);
    OneStep(c, s, LeaseTask(0));
    steps := [LeaseTask(0)];
    Then(c, s, steps, OfferTask(0, k));
    steps := steps + [OfferTask(0, k)];
    Then(c, s, steps, SignalPool(0, 0));
    steps := steps + [SignalPool(0, 0)];
  }

  lemma {:induction false} Fill(c: Config, s: State, k: nat, worker: Worker, queued: nat, n: nat, free: nat, done: nat) returns (steps: seq<Step>)
    requires Level(c, s, free, done) && free >= n && k < 2 && PoolIs(s.pools[k], worker, queued)
    requires queued + n <= c.queueLimit && !worker.Asleep?
    ensures Runs(c, s, steps)
    ensures var s' := After(c, s, steps);
      Level(c, s', free - n, done) && s'.pools[1 - k] == s.pools[1 - k] && PoolIs(s'.pools[k], worker, queued + n)
    decreases n
  {
    hide Apply, Enabled, Level, PoolIs;
    if n == 0 {
      steps := [];
    } else {
      var first := Submit(c, s, k, worker, queued, free, done);
      var rest := Fill(c, After(c, s, first), k, worker, queued + 1, n - 1, free - 1, done);
      RunsOn(c, s, first, rest);
      steps := first + rest;
    }
  }

  /** A waiting worker takes the only queued task. */
  lemma Occupy(c: Config, s: State, k: nat, free: nat, done: nat) returns (steps: seq<Step>)
    requires Level(c, s, free, done) && free > 0 && k < 2 && PoolIs(s.pools[k], Ready, 0)
    ensures Runs(c, s, steps)
    ensures var s' := After(c, s, steps);
      && Level(c, s', free - 1, done) && s'.pools[1 - k] == s.pools[1 - k]
      && s'.pools[k].queue == [] && |s'.pools[k].workers| == 1 && s'.pools[k].workers[0].Running?
      && s'.pools[k].workers[0].task.rid == 0
  {
    hide Runs, After;
    steps := Submit(c, s, k, Ready, 0, free, done);
    Then(c, s, steps, CheckQueue(k, 0));
    steps := steps + [CheckQueue(k, 0)];
  }

  /** A request goes all the way to the completion queue. */
  lemma Serve(c: Config, s: State, free: nat, done: nat) returns (steps: seq<Step>)
    requires Level(c, s, free, done) && free > 0 && PoolIs(s.pools[FAST], Ready, 0)
    ensures Runs(c, s, steps)
    ensures var s' := After(c, s, steps);
      Level(c, s', free - 1, done + 1) && s'.pools[SLOW] == s.pools[SLOW] && PoolIs(s'.pools[FAST], Ready, 0)
  {
    hide Runs, After;
    steps := Occupy(c, s, FAST, free, done);
    Then(c, s, steps, NotifyDone(FAST, 0));
    steps := steps + [NotifyDone(FAST, 0)];
    var s' := After(c, s, steps);
    if s'.pools[FAST].workers[0].Notifying? {
      Then(c, s, steps, WriteEvent(FAST, 0));
      steps := steps + [WriteEvent(FAST, 0)];
    }
  }

  lemma {:induction false} ServeMany(c: Config, s: State, n: nat, free: nat, done: nat) returns (steps: seq<Step>)
    requires Level(c, s, free, done) && free >= n && PoolIs(s.pools[FAST], Ready, 0)
    ensures Runs(c, s, steps)
    ensures var s' := After(c, s, steps);
      Level(c, s', free - n, done + n) && s'.pools[SLOW] == s.pools[SLOW] && PoolIs(s'.pools[FAST], Ready, 0)
    decreases n
  {
    hide Apply, Enabled, Level, PoolIs;
    if n == 0 {
      steps := [];
    } else {
      var first := Serve(c, s, free, done);
      var rest := ServeMany(c, After(c, s, first), n - 1, free - 1, done + 1);
      RunsOn(c, s, first, rest);
      steps := first + rest;
    }
  }

  // ---------- the whole run ----------

  /** 64 reactors and a single configured worker, which becomes one worker per pool. */
  lemma SmallestDeployment(percentage: nat, queueLimit: nat)
    requires percentage <= 100
    ensures Deploy(64, 1, percentage, queueLimit) ==
      Config(64, 1, 1, 2 * (if queueLimit == 0 then 100000 else queueLimit) + 10001, queueLimit)
  {
    var split := Sizing.SplitWorkers(1, percentage);
    assert split.fast == 1 && split.slow == 1;
  }

  lemma StartLevel(c: Config)
    requires c.reactors >= 1 && c.fastWorkers == 1 && c.slowWorkers == 1
    ensures var s := Init(c);
      && !s.aborted && Fresh(s, c.reactors - 1) && OthersIdle(s) && |s.stack| == c.slab
      && Level(c, s, c.slab, 0) && PoolIs(s.pools[FAST], Ready, 0) && PoolIs(s.pools[SLOW], Ready, 0)
  {
  }

  lemma LevelAfterStranding(c: Config, s: State, s': State, free: nat)
    requires Level(c, s, free, 0) && s.reactors[0].cache == []
    requires !s'.aborted && s'.pools == s.pools && |s'.reactors| == |s.reactors| && s'.reactors[0] == s.reactors[0] && OthersIdle(s')
    ensures Level(c, s', |s'.stack|, 0)
  {
  }

  /** Serves n requests to completion, then leaves one task with each worker and q tasks in each queue. */
  lemma Pile(c: Config, s: State, n: nat, q: nat, free: nat) returns (steps: seq<Step>)
    requires Level(c, s, free, 0) && PoolIs(s.pools[FAST], Ready, 0) && PoolIs(s.pools[SLOW], Ready, 0)
    requires free == n + 2 + 2 * q && (q > 0 ==> q <= c.queueLimit)
    ensures Runs(c, s, steps)
    ensures var s' := After(c, s, steps);
      Level(c, s', 0, n) && |s'.pools[FAST].queue| == q && |s'.pools[SLOW].queue| == q
  {
    hide Runs, After, Level;
    steps := ServeMany(c, s, n, free, 0);
    var s1 := After(c, s, steps);
    var more := Occupy(c, s1, FAST, free - n, n);
    RunsOn(c, s, steps, more);
    steps := steps + more;
    var s2 := After(c, s, steps);
    more := Occupy(c, s2, SLOW, free - n - 1, n);
    RunsOn(c, s, steps, more);
    steps := steps + more;
    if q > 0 {
      var s3 := After(c, s, steps);
      LevelHasPools(c, s3, free - n - 2, n);
      more := Fill(c, s3, FAST, s3.pools[FAST].workers[0], 0, q, free - n - 2, n);
      RunsOn(c, s, steps, more);
      steps := steps + more;
      var s4 := After(c, s, steps);
      LevelHasPools(c, s4, free - n - 2 - q, n);
      more := Fill(c, s4, SLOW, s4.pools[SLOW].workers[0], 0, q, free - n - 2 - q, n);
      RunsOn(c, s, steps, more);
      steps := steps + more;
    }
  }

  lemma {:induction false} OthersHoldNothing(reactors: seq<Reactor>)
    requires forall q :: 0 <= q < |reactors| ==> reactors[q].phase.Idle? && reactors[q].completed == []
    ensures Sum(HeldByReactor, reactors) == multiset{}
  {
    forall q | 0 <= q < |reactors| ensures HeldByReactor(reactors[q]) == multiset{} {
    }
    SumEmpty(HeldByReactor, reactors);
  }

  lemma EmptyLevel(c: Config, s: State, n: nat)
    requires Level(c, s, 0, n)
    ensures Enabled(c, s, LeaseTask(0)) && Alloc(Shelf(s.stack, s.reactors[0].cache, s.marked)).1.Exhausted?
    ensures |OnReactorSide(s)| == n
  {
    AllocConserves(Shelf(s.stack, s.reactors[0].cache, s.marked));
    forall q | 0 <= q < |s.reactors[1..]| ensures s.reactors[1..][q].phase.Idle? && s.reactors[1..][q].completed == [] {
      assert s.reactors[1..][q] == s.reactors[q + 1];
    }
    OthersHoldNothing(s.reactors[1..]);
    assert OnReactorSide(s) == HeldByReactor(s.reactors[0]) + multiset{};
    assert HeldByReactor(s.reactors[0]) == multiset(s.reactors[0].completed);
  }

  /** A deployed server can run out of tasks, and then the backlog can be as small as the bounds of
      `Exhaustion` allow: 5967 tasks on the reactor side for every queue limit, 205967 without one. */
  lemma BoundIsAttained(percentage: nat, queueLimit: nat) returns (run: seq<Step>)
    requires percentage <= 100
    ensures var c := Deploy(64, 1, percentage, queueLimit);
      && Legal(c, run) && Enabled(c, Exec(c, run), LeaseTask(0))
      && var s := Exec(c, run);
         && Alloc(Shelf(s.stack, s.reactors[0].cache, s.marked)).1.Exhausted?
         && |s.pools| == 2
         && (queueLimit > 0 ==> |OnReactorSide(s)| == 5967)
         && (queueLimit == 0 ==> |OnReactorSide(s)| + |s.pools[FAST].queue| + |s.pools[SLOW].queue| == 205967)
  {
    hide Runs, After, Level, Deploy, Apply, Enabled, Alloc;
    SmallestDeployment(percentage, queueLimit);
    var c := Deploy(64, 1, percentage, queueLimit);
    var s := Init(c);
    StartLevel(c);
    var strand := StrandAll(c, s, 63);
    var s1 := After(c, s, strand);
    LevelAfterStranding(c, s, s1, c.slab);
    var n := if queueLimit > 0 then 5967 else 205967;
    var pile := Pile(c, s1, n, queueLimit, |s1.stack|);
    RunsOn(c, s, strand, pile);
    run := strand + pile;
    assert [] + run == run;
    Continue(c, [], run);
    EmptyLevel(c, Exec(c, run), n);
    assert |Exec(c, run).pools| == 2 by { LevelHasPools(c, Exec(c, run), 0, n); }
  }

  lemma LevelHasPools(c: Config, s: State, free: nat, n: nat)
    requires Level(c, s, free, n)
    ensures |s.pools| == 2
  {
  }
}
