/** The slab allocator of lib/task_pool.c.

    A fixed slab of `size` tasks, named by their slab index. Free tasks sit on a global stack
    guarded by a mutex, or in the 64-slot cache of a reactor thread. Each task has a flag that
    `task_pool_free` tests and sets to catch a double free. */
module TaskSlab {
  import opened Tally

  const CACHE_SIZE: nat := 64

  datatype Lease = Lease(id: nat) | Exhausted

  datatype Deposit = Stored | StackOverflow

  /** What one thread sees of the allocator: the global stack, its own cache, the set flags. */
  datatype Shelf = Shelf(stack: seq<nat>, cache: seq<nat>, marked: set<nat>)

  function Reverse(s: seq<nat>): (r: seq<nat>)
    ensures |r| == |s|
    ensures forall i :: 0 <= i < |s| ==> r[i] == s[|s| - 1 - i]
  {
    seq(|s|, i requires 0 <= i < |s| => s[|s| - 1 - i])
  }

  function Elements(s: seq<nat>): set<nat> {
    set t | t in s
  }

  /** Up to 64 tasks move. */
  function Refill(shelf: Shelf): Shelf {
    Move(shelf, Min(|shelf.stack|, CACHE_SIZE))
  }

  /** Moves the top n tasks of the stack, from the top down, into the cache and clears their flags. */
  function Move(shelf: Shelf, n: nat): Shelf
    requires n <= |shelf.stack|
  {
    var keep := |shelf.stack| - n;
    var moved := shelf.stack[keep..];
    Shelf(shelf.stack[..keep], shelf.cache + Reverse(moved), shelf.marked - Elements(moved))
  }

  /** Leases the task on top of the cache. */
  function Take(shelf: Shelf): (Shelf, nat)
    requires shelf.cache != []
  {
    var last := |shelf.cache| - 1;
    (Shelf(shelf.stack, shelf.cache[..last], shelf.marked - {shelf.cache[last]}), shelf.cache[last])
  }

  function Alloc(shelf: Shelf): (Shelf, Lease) {
    var filled := if shelf.cache == [] then Refill(shelf) else shelf;
    if filled.cache == [] then (filled, Exhausted)
    else
      var (after, id) := Take(filled);
      (after, Lease(id))
  }

  /** The second half of `task_pool_free`, after the flag was set. */
  function Put(shelf: Shelf, size: nat, id: nat): (Shelf, Deposit) {
    if |shelf.cache| < CACHE_SIZE then
      (Shelf(shelf.stack, shelf.cache + [id], shelf.marked), Stored)
    else if |shelf.stack| + |shelf.cache| > size then
      (shelf, StackOverflow)
    else
      (Shelf(shelf.stack + shelf.cache, [id], shelf.marked), Stored)
  }

  datatype Outcome = Ignored | DoubleFree | Overflow | Freed

  /** All of `task_pool_free`: a pointer outside the slab is ignored, a set flag and a full stack abort. */
  function Release(shelf: Shelf, size: nat, id: nat): (Shelf, Outcome) {
    if id >= size then (shelf, Ignored)
    else if id in shelf.marked then (shelf, DoubleFree)
    else
      var (after, outcome) := Put(shelf.(marked := shelf.marked + {id}), size, id);
      (after, if outcome.Stored? then Freed else Overflow)
  }

  /** All tasks a thread can see as free. */
  function Free(shelf: Shelf): multiset<nat> {
    multiset(shelf.stack) + multiset(shelf.cache)
  }

  lemma OneMoreElement(t: nat, s: seq<nat>)
    ensures Elements([t] + s) == {t} + Elements(s)
  {
  }

  /** One turn of the refill loop. */
  function MoveTop(shelf: Shelf): Shelf
    requires shelf.stack != []
  {
    var last := |shelf.stack| - 1;
    Shelf(shelf.stack[..last], shelf.cache + [shelf.stack[last]], shelf.marked - {shelf.stack[last]})
  }

  lemma MoveNone(shelf: Shelf)
    ensures Move(shelf, 0) == shelf
  {
    assert Reverse([]) == [] && Elements([]) == {};
  }

  lemma MoveNext(shelf: Shelf, n: nat)
    requires n < |shelf.stack|
    ensures Move(shelf, n).stack != [] && MoveTop(Move(shelf, n)) == Move(shelf, n + 1)
  {
    hide Elements;
    var keep := |shelf.stack| - n;
    var t, moved := shelf.stack[keep - 1], shelf.stack[keep..];
    assert shelf.stack[keep - 1..] == [t] + moved;
    assert Reverse([t] + moved) == Reverse(moved) + [t];
    OneMoreElement(t, moved);
    assert shelf.marked - ({t} + Elements(moved)) == (shelf.marked - Elements(moved)) - {t};
    assert shelf.cache + (Reverse(moved) + [t]) == (shelf.cache + Reverse(moved)) + [t];
  }

  lemma {:induction false} ReversePermutes(s: seq<nat>)
    ensures multiset(Reverse(s)) == multiset(s)
    decreases |s|
  {
    if s != [] {
      var last := |s| - 1;
      assert s == s[..last] + [s[last]];
      assert Reverse(s) == [s[last]] + Reverse(s[..last]);
      ReversePermutes(s[..last]);
    } else {
      assert Reverse(s) == [];
    }
  }

  lemma RefillMoves(shelf: Shelf)
    ensures Free(Refill(shelf)) == Free(shelf)
    ensures Refill(shelf).cache == [] <==> shelf.cache == [] && shelf.stack == []
    ensures |Refill(shelf).cache| <= |shelf.cache| + CACHE_SIZE
    ensures Refill(shelf).marked <= shelf.marked
  {
    var keep := |shelf.stack| - Min(|shelf.stack|, CACHE_SIZE);
    assert shelf.stack == shelf.stack[..keep] + shelf.stack[keep..];
    ReversePermutes(shelf.stack[keep..]);
  }

  lemma RefillOfNothing(shelf: Shelf)
    requires shelf.stack == [] && shelf.cache == []
    ensures Refill(shelf) == shelf
  {
    assert Reverse([]) == [];
    assert Elements([]) == {};
  }

  lemma TakeConserves(shelf: Shelf)
    requires shelf.cache != []
    ensures var (after, id) := Take(shelf);
      Free(after) + multiset{id} == Free(shelf) && id !in after.marked && after.marked <= shelf.marked
  {
    var last := |shelf.cache| - 1;
    assert shelf.cache == shelf.cache[..last] + [shelf.cache[last]];
  }

  /** A lease removes exactly the leased task from the free tasks and clears its flag; no other
      flag becomes set. It fails only when this thread's cache and the whole stack are empty. */
  lemma AllocConserves(shelf: Shelf)
    requires |shelf.cache| <= CACHE_SIZE
    ensures var (after, lease) := Alloc(shelf);
      && (lease.Exhausted? <==> shelf.stack == [] && shelf.cache == [])
      && (lease.Exhausted? ==> after == shelf)
      && (lease.Lease? ==> Free(after) + multiset{lease.id} == Free(shelf) && lease.id !in after.marked)
      && after.marked <= shelf.marked
      && |after.cache| <= CACHE_SIZE
  {
    hide Refill, Free;
    RefillMoves(shelf);
    var filled := if shelf.cache == [] then Refill(shelf) else shelf;
    if filled.cache != [] {
      TakeConserves(filled);
    } else {
      RefillOfNothing(shelf);
    }
  }

  /** A deposit adds exactly the returned task to the free tasks, unless the stack would overflow. */
  lemma PutConserves(shelf: Shelf, size: nat, id: nat)
    requires |shelf.cache| <= CACHE_SIZE
    ensures var (after, outcome) := Put(shelf, size, id);
      && (outcome.Stored? ==> Free(after) == Free(shelf) + multiset{id})
      && (outcome.StackOverflow? <==> |shelf.cache| == CACHE_SIZE && |Free(shelf)| > size)
      && after.marked == shelf.marked
      && (outcome.Stored? ==> |after.cache| == if |shelf.cache| < 64 then |shelf.cache| + 1 else 1)
      && |after.cache| <= CACHE_SIZE
  {
  }

  /** When each outcome of a release happens: a foreign pointer is ignored, a set flag is a double free, a full
      cache that does not fit the stack an overflow; otherwise the task is free again and flagged. */
  lemma ReleaseOutcome(shelf: Shelf, size: nat, id: nat)
    requires |shelf.cache| <= CACHE_SIZE
    ensures var (after, outcome) := Release(shelf, size, id);
      && (outcome.Ignored? <==> id >= size)
      && (outcome.DoubleFree? <==> id < size && id in shelf.marked)
      && (outcome.Overflow? <==> id < size && id !in shelf.marked && |shelf.cache| == 64 && |Free(shelf)| > size)
      && (outcome.Freed? ==> Free(after) == Free(shelf) + multiset{id} && after.marked == shelf.marked + {id})
      && (outcome.Ignored? || outcome.DoubleFree? ==> after == shelf)
  {
    hide Free;
    PutConserves(shelf.(marked := shelf.marked + {id}), size, id);
    assert Free(shelf.(marked := shelf.marked + {id})) == Free(shelf) by { FreeIgnoresFlags(shelf, shelf.marked + {id}); }
  }

  lemma FreeIgnoresFlags(shelf: Shelf, marked: set<nat>)
    ensures Free(shelf.(marked := marked)) == Free(shelf)
  {
  }

  /** Returning a task just leased is accepted and leaves the free tasks as they were: the round
      trip of an allocation that is given up at once. */
  lemma AllocThenPut(shelf: Shelf, size: nat)
    requires |shelf.cache| <= CACHE_SIZE && |Free(shelf)| <= size
    requires Alloc(shelf).1.Lease?
    ensures var (after, lease) := Alloc(shelf);
      Put(after, size, lease.id).1.Stored? && Free(Put(after, size, lease.id).0) == Free(shelf)
  {
    AllocConserves(shelf);
    PutConserves(Alloc(shelf).0, size, Alloc(shelf).1.id);
  }
}
