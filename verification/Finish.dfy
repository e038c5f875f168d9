/** A shutdown can always be completed. From every reachable state, whatever the threads are doing, the
    steps below lead to a server whose reactors have all halted: reactors finish what they have begun, both
    pools are stopped and run empty, the workers are joined, the completion queues are drained and polled,
    and the event loops are told to stop. */
module Finish {
  import opened Tally
  import opened TaskSlab
  import opened WorkQueue
  import opened Pipeline
  import opened Ownership
  import opened Wakeups
  import opened Shutdown

  // ---------- what is left to do ----------

  function MainRank(main: Main): nat {
    match main
    case Serving => 6
    case Flagged(pool) => if pool == FAST then 5 else 3
    case Broadcast(pool) => if pool == FAST then 4 else 2
    case Polling(_) => 1
    case Breaking => 0
  }

  /** Steps a reactor still takes before it is idle with an empty completion queue, and one more to halt. */
  function Load(reactor: Reactor): nat {
    var c := 10 * |reactor.completed|;
    match reactor.phase
    case Halted => c
    case Idle => c + 1
    case Reading => if c == 0 then 3 else c
    case Draining(batch) => c + 5 * |batch| + 2
    case Freeing(_, rest) => c + 5 * |rest| + 6
    case Marked(_, rest) => c + 5 * |rest| + 5
    case Leased(_) => c + 7
    case SignalDue(_) => c + 2
  }

  function Loads(reactors: seq<Reactor>): nat {
    if reactors == [] then 0 else Load(reactors[0]) + Loads(reactors[1..])
  }

  lemma {:induction false} LoadsUpdate(reactors: seq<Reactor>, r: nat, reactor: Reactor)
    requires r < |reactors|
    ensures Loads(reactors[r := reactor]) + Load(reactors[r]) == Loads(reactors) + Load(reactor)
  {
    hide Load;
    if r == 0 {
      assert reactors[r := reactor][1..] == reactors[1..];
    } else {
      assert reactors[r := reactor][1..] == reactors[1..][r - 1 := reactor];
      LoadsUpdate(reactors[1..], r - 1, reactor);
    }
  }

  function Work(s: State): nat {
    if |s.pools| == 2 then WorkLeft(s.pools[FAST]) + WorkLeft(s.pools[SLOW]) else 0
  }

  function PollsLeft(s: State): nat {
    if s.main.Polling? && s.main.next <= |s.reactors| then |s.reactors| - s.main.next else 0
  }

  /** A step brings the shutdown closer to its end. */
  predicate Closer(s: State, s': State) {
    || MainRank(s'.main) < MainRank(s.main)
    || (s'.main == s.main && Work(s') < Work(s))
    || (s'.main == s.main && Work(s') == Work(s) && Loads(s'.reactors) < Loads(s.reactors))
    || (MainRank(s'.main) == MainRank(s.main) && Work(s') == Work(s) && s'.reactors == s.reactors && PollsLeft(s') < PollsLeft(s))
  }

  predicate AllHalted(s: State) {
    forall r :: 0 <= r < |s.reactors| ==> s.reactors[r].phase.Halted?
  }

  // ---------- signals are for existing pools ----------

  predicate SignalsExist(s: State) {
    |s.pools| == 2 && forall r :: 0 <= r < |s.reactors| && s.reactors[r].phase.SignalDue? ==> s.reactors[r].phase.pool < 2
  }

  lemma {:induction false} SignalsAlwaysExist(c: Config, run: seq<Step>)
    requires Legal(c, run)
    ensures SignalsExist(Exec(c, run))
    decreases |run|
  {
    hide Apply, Enabled, SignalsExist;
    if run == [] {
      NoSignals(c);
    } else {
      var last := |run| - 1;
      SignalsAlwaysExist(c, run[..last]);
      SignalsKept(c, Exec(c, run[..last]), run[last]);
    }
  }

  lemma NoSignals(c: Config)
    ensures SignalsExist(Init(c))
  {
  }

  lemma SignalsKept(c: Config, s: State, step: Step)
    requires SignalsExist(s) && Enabled(c, s, step)
    ensures SignalsExist(Apply(c, s, step))
  {
    hide Alloc, Put;
  }

  // ---------- a reactor in the middle of something ----------

  predicate Busy(phase: Phase) {
    !phase.Idle? && !phase.Halted?
  }

  /** The next step of a busy reactor; a leased task is given up. */
  function BusyStep(s: State, r: nat, w: nat): Step
    requires r < |s.reactors|
  {
    match s.reactors[r].phase
    case Leased(_) => GiveUp(r)
    case SignalDue(_) => SignalPool(r, w)
    case Reading => TakeBatch(r)
    case Draining(_) => ProcessNext(r)
    case Freeing(_, _) => MarkFree(r)
    case _ => DepositTask(r)
  }

  lemma BusyStepWorks(c: Config, s: State, r: nat, w: nat)
    requires r < |s.reactors| && Busy(s.reactors[r].phase) && !s.reactors[r].phase.SignalDue? && !s.aborted
    ensures Enabled(c, s, BusyStep(s, r, w))
    ensures var s' := Apply(c, s, BusyStep(s, r, w)); !s'.aborted ==> s'.main == s.main && Work(s') == Work(s) && Loads(s'.reactors) < Loads(s.reactors)
  {
    hide Put, Loads, WorkLeft;
    var s' := Apply(c, s, BusyStep(s, r, w));
    LoadsUpdate(s.reactors, r, s'.reactors[r]);
  }

  /** Some sleeping worker of a pool, if there is one. */
  function Sleeper(workers: seq<Worker>): (w: nat)
    ensures AnyAsleep(workers) ==> w < |workers| && workers[w].Asleep?
  {
    if workers == [] || workers[0].Asleep? then 0
    else
      assert forall i :: 0 < i < |workers| ==> workers[i] == workers[1..][i - 1];
      1 + Sleeper(workers[1..])
  }

  lemma SignalWorks(c: Config, s: State, r: nat)
    requires SignalsExist(s) && r < |s.reactors| && s.reactors[r].phase.SignalDue? && !s.aborted
    ensures var step := SignalPool(r, Sleeper(s.pools[s.reactors[r].phase.pool].workers));
      && Enabled(c, s, step)
      && var s' := Apply(c, s, step); s'.main == s.main && Work(s') == Work(s) && Loads(s'.reactors) < Loads(s.reactors)
  {
    hide Loads, Effort;
    var k := s.reactors[r].phase.pool;
    var workers := s.pools[k].workers;
    var w := Sleeper(workers);
    var s' := Apply(c, s, SignalPool(r, w));
    LoadsUpdate(s.reactors, r, s'.reactors[r]);
    if AnyAsleep(workers) {
      EffortUpdate(workers, w, Woken);
    }
  }

  // ---------- the next step ----------

  lemma ReactorAdvances(c: Config, run: seq<Step>, r: nat) returns (step: Step)
    requires Legal(c, run) && r < |Exec(c, run).reactors| && Busy(Exec(c, run).reactors[r].phase)
    ensures Enabled(c, Exec(c, run), step) && Closer(Exec(c, run), Apply(c, Exec(c, run), step))
  {
    hide Legal, Exec, Apply, Enabled, Work, Loads;
    var s := Exec(c, run);
    OwnershipHolds(c, run);
    SignalsAlwaysExist(c, run);
    if s.reactors[r].phase.SignalDue? {
      step := SignalPool(r, Sleeper(s.pools[s.reactors[r].phase.pool].workers));
      SignalWorks(c, s, r);
    } else {
      step := BusyStep(s, r, 0);
      BusyStepWorks(c, s, r, 0);
      NoAbort(c, s, step);
    }
  }

  lemma WorkerAdvances(c: Config, run: seq<Step>, k: nat, w: nat) returns (step: Step)
    requires Legal(c, run) && k < 2 && Exec(c, run).main == Broadcast(SLOW)
    requires AtWorker(Exec(c, run), k, w) && !Exec(c, run).pools[k].workers[w].Exited?
    ensures Enabled(c, Exec(c, run), step) && Closer(Exec(c, run), Apply(c, Exec(c, run), step))
  {
    hide Legal, Exec, Loads, Effort, Owned, Awake, Flows, PoolStage, ReactorStage;
    var s := Exec(c, run);
    StoppedWorkerCanMove(c, run, k, w);
    RunIsOrderly(c, run);
    step := if Enabled(c, s, CheckQueue(k, w)) then CheckQueue(k, w)
            else if Enabled(c, s, NotifyDone(k, w)) then NotifyDone(k, w) else WriteEvent(k, w);
    StoppedPoolWindsDown(c, s, step, k);
    StoppedPoolWindsDown(c, s, step, 1 - k);
  }

  lemma MainAdvances(c: Config, s: State)
    requires SignalsExist(s) && !s.aborted
    requires s.main.Flagged? || s.main.Broadcast? ==> s.main.pool < 2
    requires s.main == Broadcast(SLOW) ==> AllExited(s.pools[FAST].workers) && AllExited(s.pools[SLOW].workers)
    requires !s.main.Polling? && !s.main.Breaking?
    ensures var step := if s.main.Serving? || s.main == Broadcast(FAST) then RaiseShutdown
                        else if s.main.Flagged? then BroadcastShutdown else JoinWorkers;
      Enabled(c, s, step) && Closer(s, Apply(c, s, step))
  {
    hide Work, Loads, PollsLeft;
  }

  lemma PollAdvances(c: Config, s: State)
    requires !s.aborted && s.main.Polling? && s.main.next <= |s.reactors|
    requires s.main.next < |s.reactors| ==> s.reactors[s.main.next].completed == []
    ensures Enabled(c, s, PollReactor) && Closer(s, Apply(c, s, PollReactor))
  {
    hide Loads, WorkLeft;
  }

  lemma ReadAdvances(c: Config, s: State, r: nat)
    requires !s.aborted && r < |s.reactors| && s.reactors[r].phase.Idle? && s.reactors[r].eventfd > 0 && s.reactors[r].completed != []
    ensures Enabled(c, s, ReadEvent(r)) && Closer(s, Apply(c, s, ReadEvent(r)))
  {
    hide Loads, WorkLeft;
    LoadsUpdate(s.reactors, r, Apply(c, s, ReadEvent(r)).reactors[r]);
  }

  lemma HaltAdvances(c: Config, s: State, r: nat)
    requires !s.aborted && r < |s.reactors| && s.reactors[r].phase.Idle? && s.main.Breaking?
    ensures Enabled(c, s, HaltReactor(r)) && Closer(s, Apply(c, s, HaltReactor(r)))
  {
    hide Loads, WorkLeft;
    LoadsUpdate(s.reactors, r, Apply(c, s, HaltReactor(r)).reactors[r]);
  }

  /** With the reactors at rest, the shutdown itself goes on. */
  lemma ShutdownAdvances(c: Config, run: seq<Step>) returns (step: Step)
    requires Legal(c, run) && !AllHalted(Exec(c, run))
    requires forall r :: 0 <= r < |Exec(c, run).reactors| ==> !Busy(Exec(c, run).reactors[r].phase)
    ensures Enabled(c, Exec(c, run), step) && Closer(Exec(c, run), Apply(c, Exec(c, run), step))
  {
    hide Legal, Exec, Apply, Enabled, Closer, Awake, Flows, PoolStage, ReactorStage, Owned;
    var s := Exec(c, run);
    RunIsOrderly(c, run);
    SignalsAlwaysExist(c, run);
    assert !s.aborted by { OwnedIsRunning(c, s); }
    if s.main == Broadcast(SLOW) && !AllExited(s.pools[FAST].workers) {
      var w: nat :| w < |s.pools[FAST].workers| && !s.pools[FAST].workers[w].Exited?;
      step := WorkerAdvances(c, run, FAST, w);
    } else if s.main == Broadcast(SLOW) && !AllExited(s.pools[SLOW].workers) {
      var w: nat :| w < |s.pools[SLOW].workers| && !s.pools[SLOW].workers[w].Exited?;
      step := WorkerAdvances(c, run, SLOW, w);
    } else if s.main.Polling? {
      if s.main.next < |s.reactors| && s.reactors[s.main.next].completed != [] {
        DrainIsNotStuck(c, run, s.main.next);
        step := ReadEvent(s.main.next);
        ReadAdvances(c, s, s.main.next);
      } else {
        step := PollReactor;
        PollAdvances(c, s);
      }
    } else if s.main.Breaking? {
      var r: nat :| r < |s.reactors| && !s.reactors[r].phase.Halted?;
      step := HaltReactor(r);
      HaltAdvances(c, s, r);
    } else {
      step := if s.main.Serving? || s.main == Broadcast(FAST) then RaiseShutdown
              else if s.main.Flagged? then BroadcastShutdown else JoinWorkers;
      MainAdvances(c, s);
    }
  }

  lemma OwnedIsRunning(c: Config, s: State)
    requires Owned(c, s)
    ensures !s.aborted
  {
  }

  lemma Advance(c: Config, run: seq<Step>) returns (step: Step)
    requires Legal(c, run) && !AllHalted(Exec(c, run))
    ensures Enabled(c, Exec(c, run), step) && Closer(Exec(c, run), Apply(c, Exec(c, run), step))
  {
    hide Legal, Exec, Apply, Enabled, Closer;
    var s := Exec(c, run);
    if r: nat :| r < |s.reactors| && Busy(s.reactors[r].phase) {
      step := ReactorAdvances(c, run, r);
    } else {
      step := ShutdownAdvances(c, run);
    }
  }

  lemma ExtendRun(c: Config, run: seq<Step>, step: Step)
    requires Legal(c, run) && Enabled(c, Exec(c, run), step)
    ensures Legal(c, run + [step]) && Exec(c, run + [step]) == Apply(c, Exec(c, run), step)
  {
    hide Apply, Enabled;
    assert (run + [step])[..|run + [step]| - 1] == run;
  }

  /** Main result: every run can be continued to a server whose reactors have all halted. */
  lemma {:induction false} ShutdownCanFinish(c: Config, run: seq<Step>) returns (more: seq<Step>)
    requires Legal(c, run)
    ensures Legal(c, run + more) && AllHalted(Exec(c, run + more))
    decreases MainRank(Exec(c, run).main), Work(Exec(c, run)), Loads(Exec(c, run).reactors), PollsLeft(Exec(c, run))
  {
    hide Legal, Exec, Apply, Enabled, AllHalted, Work, Loads, PollsLeft;
    var s := Exec(c, run);
    if AllHalted(s) {
      more := [];
      assert run + more == run;
    } else {
      var step := Advance(c, run);
      ExtendRun(c, run, step);
      var rest := ShutdownCanFinish(c, run + [step]);
      more := [step] + rest;
      assert run + more == run + [step] + rest;
    }
  }

  /** A completed shutdown has returned every task, delivered all accepted work and answered everything that
      was delivered. */
  lemma ShutdownEndsWhole(c: Config, run: seq<Step>, t: Ticket) returns (more: seq<Step>)
    requires Legal(c, run) && c.reactors >= 1 && c.fastWorkers >= 1 && c.slowWorkers >= 1
    ensures Legal(c, run + more) && AllHalted(Exec(c, run + more))
    ensures var s := Exec(c, run + more);
      && Out(s) == multiset{} && |InSlab(s)| == c.slab && LentTimes(s.log, t) == ReturnedTimes(s.log, t)
      && forall r :: 0 <= r < |s.reactors| ==> s.reactors[r].replied == s.reactors[r].notified
  {
    hide Legal, Exec, Sum;
    more := ShutdownCanFinish(c, run);
    var all := run + more;
    RunIsOrderly(c, all);
    HaltedServerIsWhole(c, all, t);
    var s := Exec(c, all);
    forall r | 0 <= r < |s.reactors| ensures s.reactors[r].replied == s.reactors[r].notified {
      assert ReactorStage(s.main, r, s.reactors[r]) && ReactorInOrder(s.reactors[r]);
    }
  }
}
