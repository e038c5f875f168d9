/** What the free flag of a task means. It is not "is free": a refill clears it for tasks that only move
    into a thread cache. Over every run it is a record of what last happened to the task. */
module Flags {
  import opened Tally
  import opened TaskSlab
  import opened Pipeline
  import opened Ownership

  /** The tasks a step leases, or moves from the stack into a cache. */
  function Touched(s: State, step: Step): set<nat> {
    if !step.LeaseTask? || step.r >= |s.reactors| then {}
    else
      var cache := s.reactors[step.r].cache;
      if cache != [] then {cache[|cache| - 1]}
      else Elements(s.stack[|s.stack| - Min(|s.stack|, CACHE_SIZE)..])
  }

  /** The tasks a step starts to return. */
  function Marks(s: State, step: Step): set<nat> {
    if step.MarkFree? && step.r < |s.reactors| && s.reactors[step.r].phase.Freeing? then {s.reactors[step.r].phase.task.id}
    else {}
  }

  lemma RefillClears(shelf: Shelf)
    requires shelf.cache == [] && shelf.stack != []
    ensures var moved := shelf.stack[|shelf.stack| - Min(|shelf.stack|, CACHE_SIZE)..];
      Alloc(shelf).0.marked == shelf.marked - Elements(moved)
  {
    var moved := shelf.stack[|shelf.stack| - Min(|shelf.stack|, CACHE_SIZE)..];
    assert moved[0] in Elements(moved);
    assert Refill(shelf).cache == Reverse(moved);
  }

  lemma LeaseClears(s: State, r: nat)
    requires r < |s.reactors|
    ensures DoLease(s, r).marked == s.marked - Touched(s, LeaseTask(r))
  {
    hide Elements, Alloc;
    var shelf := Shelf(s.stack, s.reactors[r].cache, s.marked);
    if shelf.cache == [] {
      if shelf.stack == [] {
        NothingToClear(shelf);
      } else {
        RefillClears(shelf);
      }
    } else {
      CacheClears(shelf);
    }
  }

  lemma CacheClears(shelf: Shelf)
    requires shelf.cache != []
    ensures Alloc(shelf).0.marked == shelf.marked - {shelf.cache[|shelf.cache| - 1]}
  {
  }

  lemma NothingToClear(shelf: Shelf)
    requires shelf.cache == [] && shelf.stack == []
    ensures Alloc(shelf).0.marked == shelf.marked
    ensures Elements(shelf.stack[|shelf.stack| - Min(|shelf.stack|, CACHE_SIZE)..]) == {}
  {
    RefillOfNothing(shelf);
  }

  /** One step: leases and refills clear flags, the start of a return sets one, nothing else does either. */
  lemma FlagStep(c: Config, s: State, step: Step)
    requires Enabled(c, s, step)
    ensures Apply(c, s, step).marked == s.marked - Touched(s, step) + Marks(s, step)
  {
    hide Elements, Alloc;
    match step {
      case LeaseTask(r) => LeaseClears(s, r);
      case _ =>
    }
  }

  lemma {:induction false} PrefixIsLegal(c: Config, run: seq<Step>, i: nat)
    requires Legal(c, run) && i <= |run|
    ensures Legal(c, run[..i])
    decreases |run|
  {
    if i < |run| {
      var last := |run| - 1;
      PrefixIsLegal(c, run[..last], i);
      assert run[..last][..i] == run[..i];
    } else {
      assert run[..i] == run;
    }
  }

  /** The i-th step of the run touched the task. */
  predicate TouchedAt(c: Config, run: seq<Step>, i: int, id: nat)
    requires Legal(c, run)
  {
    0 <= i < |run| && Legal(c, run[..i]) && id in Touched(Exec(c, run[..i]), run[i])
  }

  /** The i-th step of the run started to return the task. */
  predicate MarkedAt(c: Config, run: seq<Step>, i: int, id: nat)
    requires Legal(c, run)
  {
    0 <= i < |run| && Legal(c, run[..i]) && id in Marks(Exec(c, run[..i]), run[i])
  }

  ghost predicate UntouchedSinceMark(c: Config, run: seq<Step>, id: nat)
    requires Legal(c, run)
  {
    forall i :: TouchedAt(c, run, i, id) ==> exists j :: i < j && MarkedAt(c, run, j, id)
  }

  lemma EarlierSteps(c: Config, run: seq<Step>, i: int, id: nat)
    requires run != [] && Legal(c, run) && i != |run| - 1
    ensures Legal(c, run[..|run| - 1])
    ensures TouchedAt(c, run, i, id) <==> TouchedAt(c, run[..|run| - 1], i, id)
    ensures MarkedAt(c, run, i, id) <==> MarkedAt(c, run[..|run| - 1], i, id)
  {
    if 0 <= i < |run| - 1 {
      assert run[..|run| - 1][..i] == run[..i];
    }
  }

  /** The last step decides if it concerns the task, and otherwise changes nothing. */
  lemma HistoryStep(c: Config, run: seq<Step>, id: nat)
    requires run != [] && Legal(c, run) && Legal(c, run[..|run| - 1])
    requires var last := |run| - 1; var s := Exec(c, run[..last]); id in Marks(s, run[last]) ==> id !in Touched(s, run[last])
    ensures var last := |run| - 1;
      var s := Exec(c, run[..last]);
      UntouchedSinceMark(c, run, id) <==>
        id in Marks(s, run[last]) || (id !in Touched(s, run[last]) && UntouchedSinceMark(c, run[..last], id))
  {
    hide Touched, Marks, Exec, Legal;
    var last := |run| - 1;
    var before := run[..last];
    forall i | i != last
      ensures TouchedAt(c, run, i, id) <==> TouchedAt(c, before, i, id)
      ensures MarkedAt(c, run, i, id) <==> MarkedAt(c, before, i, id)
    {
      EarlierSteps(c, run, i, id);
    }
    if id in Marks(Exec(c, before), run[last]) {
      assert MarkedAt(c, run, last, id);
    } else if id in Touched(Exec(c, before), run[last]) {
      assert TouchedAt(c, run, last, id);
      assert forall j :: last < j ==> !MarkedAt(c, run, j, id);
    } else {
      assert !TouchedAt(c, run, last, id) && !MarkedAt(c, run, last, id);
    }
  }

  /** Main result: in every reachable state a task's flag is set exactly when it belongs to the slab and
      every lease or refill that touched it was followed by the start of a return. */
  lemma {:induction false} FlagMeansUntouchedSinceReturn(c: Config, run: seq<Step>, id: nat)
    requires Legal(c, run)
    ensures id in Exec(c, run).marked <==> id < c.slab && UntouchedSinceMark(c, run, id)
    decreases |run|
  {
    hide Touched, Marks, Apply, Enabled, UntouchedSinceMark;
    if run == [] {
      InitialFlags(c, id);
      NoHistory(c, id);
    } else {
      var last := |run| - 1;
      var s := Exec(c, run[..last]);
      FlagMeansUntouchedSinceReturn(c, run[..last], id);
      FlagStep(c, s, run[last]);
      TouchOrMark(s, run[last], id);
      HistoryStep(c, run, id);
      if id in Marks(s, run[last]) {
        MarksAreTasks(c, run[..last], run[last], id);
      }
    }
  }

  lemma NoHistory(c: Config, id: nat)
    ensures UntouchedSinceMark(c, [], id)
  {
  }

  lemma TouchOrMark(s: State, step: Step, id: nat)
    ensures id in Marks(s, step) ==> id !in Touched(s, step)
  {
  }

  lemma InitialFlags(c: Config, id: nat)
    ensures id in Init(c).marked <==> id < c.slab
  {
    var all: seq<nat> := seq(c.slab, i => i);
    if id < c.slab {
      assert all[id] == id;
    }
  }

  /** Only tasks of the slab are returned. */
  lemma MarksAreTasks(c: Config, run: seq<Step>, step: Step, id: nat)
    requires Legal(c, run) && id in Marks(Exec(c, run), step)
    ensures id < c.slab
  {
    hide Sum, Exec, Legal;
    OwnershipHolds(c, run);
    var s := Exec(c, run);
    HandIsOut(s, step.r);
    var t := s.reactors[step.r].phase.task;
    OutIsHomed(c, s, t);
    CopiesHas(Out(s), t.id, t.rid, c.reactors);
    assert Places(c, s, t.id) >= 1;
  }

  /** "The flag says whether a task is free" fails in every configuration with a reactor and two tasks: after
      the first lease a task lies free in the cache with its flag clear. */
  lemma FreeTaskWithoutFlag(c: Config)
    requires c.reactors >= 1 && c.slab >= 2
    ensures Legal(c, [LeaseTask(0)])
    ensures var s := Exec(c, [LeaseTask(0)]);
      |s.reactors| == c.reactors && s.reactors[0].cache != [] && s.reactors[0].cache[0] in InSlab(s) && s.reactors[0].cache[0] !in s.marked
  {
    hide Alloc, Sum;
    var s0 := Init(c);
    var run := [LeaseTask(0)];
    assert run[..0] == [];
    assert Exec(c, run[..0]) == s0;
    FirstLease(Shelf(s0.stack, [], s0.marked));
    var s := Exec(c, run);
    assert s == DoLease(s0, 0);
    SumHas(CacheOf, s.reactors, 0);
    assert s.reactors[0].cache[0] in CacheOf(s.reactors[0]);
  }

  /** The first lease leaves the rest of the refill in the cache, unflagged. */
  lemma FirstLease(shelf: Shelf)
    requires shelf.cache == [] && |shelf.stack| >= 2
    ensures var after := Alloc(shelf).0; after.cache != [] && after.cache[0] !in after.marked
  {
    var moved := shelf.stack[|shelf.stack| - Min(|shelf.stack|, CACHE_SIZE)..];
    RefillClears(shelf);
    assert Refill(shelf).cache == Reverse(moved);
    assert Alloc(shelf).0.cache[0] == moved[|moved| - 1];
  }
}
