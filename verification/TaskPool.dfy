/** lib/task_pool.c as it runs: arrays filled in place, refined to the functions of `TaskSlab`. */
module TaskPool {
  import opened TaskSlab

  const DEFAULT_POOL_SIZE: nat := 100000

  /** `tl_cache` and `tl_cache_count` of one thread. */
  class ThreadCache {
    const slots: array<nat>
    var count: nat

    constructor ()
      ensures count == 0 && slots.Length == CACHE_SIZE && fresh(slots)
    {
      slots := new nat[CACHE_SIZE];
      count := 0;
    }
  }

  class Pool {
    const size: nat
    const stack: array<nat>
    const flags: array<bool>
    var top: nat

    ghost predicate Valid()
      reads this, stack, flags
    {
      && stack.Length == size && flags.Length == size && top <= size
      && forall i :: 0 <= i < top ==> stack[i] < size
    }

    /** The cache belongs to a thread of this pool and names tasks of its slab. */
    ghost predicate Serves(cache: ThreadCache)
      reads this, cache, cache.slots
    {
      && cache.slots != stack && cache.slots.Length == CACHE_SIZE && cache.count <= CACHE_SIZE
      && forall i :: 0 <= i < cache.count ==> cache.slots[i] < size
    }

    ghost function Marked(): set<nat>
      requires Valid()
      reads this, stack, flags
    {
      set i: nat | i < size && flags[i]
    }

    ghost function View(cache: ThreadCache): Shelf
      requires Valid() && Serves(cache)
      reads this, stack, flags, cache, cache.slots
    {
      Shelf(stack[..top], cache.slots[..cache.count], Marked())
    }

    /** `task_pool_init`: every task is free, on the stack, and flagged. */
    constructor (requested: nat)
      ensures Valid() && fresh(stack) && fresh(flags)
      ensures size == (if requested == 0 then DEFAULT_POOL_SIZE else requested)
      ensures top == size && (forall i :: 0 <= i < size ==> stack[i] == i && flags[i])
    {
      var n := if requested == 0 then DEFAULT_POOL_SIZE else requested;
      size := n;
      var freeStack, isFree := new nat[n], new bool[n];
      for i := 0 to n
        invariant forall j :: 0 <= j < i ==> freeStack[j] == j && isFree[j]
      {
        freeStack[i] := i;
        isFree[i] := true;
      }
      stack, flags, top := freeStack, isFree, n;
    }

    /** The refill loop of `task_pool_alloc`. */
    method RefillCache(cache: ThreadCache)
      requires Valid() && Serves(cache) && cache.count == 0
      modifies this`top, flags, cache`count, cache.slots
      ensures Valid() && Serves(cache)
      ensures View(cache) == Refill(old(View(cache)))
    {
      hide Move, MoveTop;
      var batch := if top < CACHE_SIZE then top else CACHE_SIZE;
      ghost var before := View(cache);
      MoveNone(before);
      for i := 0 to batch
        invariant Valid() && Serves(cache) && cache.count == i && top == old(top) - i
        invariant View(cache) == Move(before, i)
      {
        MoveNext(before, i);
        MoveOne(cache);
      }
    }

    method MoveOne(cache: ThreadCache)
      requires Valid() && Serves(cache) && top > 0 && cache.count < CACHE_SIZE
      modifies this`top, flags, cache`count, cache.slots
      ensures Valid() && Serves(cache) && top == old(top) - 1 && cache.count == old(cache.count) + 1
      ensures View(cache) == MoveTop(old(View(cache)))
    {
      ghost var before := stack[..top];
      top := top - 1;
      var t := stack[top];
      assert before[..top] == stack[..top];
      flags[t] := false;
      cache.slots[cache.count] := t;
      cache.count := cache.count + 1;
    }

    /** `task_pool_alloc`, up to clearing the task's fields. */
    method Lend(cache: ThreadCache) returns (task: Lease)
      requires Valid() && Serves(cache)
      modifies this`top, flags, cache`count, cache.slots
      ensures Valid() && Serves(cache)
      ensures (View(cache), task) == Alloc(old(View(cache)))
    {
      hide Refill, Take;
      if cache.count == 0 {
        RefillCache(cache);
      }
      if cache.count == 0 {
        return Exhausted;
      }
      var id := TakeTop(cache);
      task := Lease(id);
    }

    method TakeTop(cache: ThreadCache) returns (id: nat)
      requires Valid() && Serves(cache) && cache.count > 0
      modifies flags, cache`count
      ensures Valid() && Serves(cache)
      ensures (View(cache), id) == Take(old(View(cache)))
    {
      ghost var before := View(cache);
      cache.count := cache.count - 1;
      id := cache.slots[cache.count];
      flags[id] := false;
      assert cache.slots[..cache.count] == before.cache[..cache.count];
      assert Marked() == before.marked - {id};
    }

    /** `task_pool_free`; an abort leaves everything as it is. */
    method Return(cache: ThreadCache, id: nat) returns (outcome: Outcome)
      requires Valid() && Serves(cache)
      modifies this`top, stack, flags, cache`count, cache.slots
      ensures Valid() && Serves(cache)
      ensures outcome == Release(old(View(cache)), size, id).1
      ensures outcome.Freed? || outcome.Ignored? ==> View(cache) == Release(old(View(cache)), size, id).0
    {
      if id >= size {
        return Ignored;
      }
      if flags[id] {
        return DoubleFree;
      }
      ghost var before := View(cache);
      flags[id] := true;
      assert Marked() == before.marked + {id};
      if cache.count < CACHE_SIZE {
        Store(cache, id);
        return Freed;
      }
      if top + cache.count > size {
        return Overflow;
      }
      FlushCache(cache);
      Store(cache, id);
      outcome := Freed;
    }

    method Store(cache: ThreadCache, id: nat)
      requires Valid() && Serves(cache) && id < size && cache.count < CACHE_SIZE
      modifies cache`count, cache.slots
      ensures Valid() && Serves(cache)
      ensures View(cache) == old(View(cache)).(cache := old(View(cache)).cache + [id])
    {
      cache.slots[cache.count] := id;
      cache.count := cache.count + 1;
      assert cache.slots[..cache.count] == old(cache.slots[..cache.count]) + [id];
    }

    /** The whole cache goes onto the stack, lowest slot first. */
    method FlushCache(cache: ThreadCache)
      requires Valid() && Serves(cache) && top + cache.count <= size
      modifies this`top, stack, cache`count
      ensures Valid() && Serves(cache)
      ensures View(cache) == Shelf(old(View(cache)).stack + old(View(cache)).cache, [], old(View(cache)).marked)
    {
      ghost var before := View(cache);
      var start := top;
      for i := 0 to cache.count
        invariant Valid() && Serves(cache) && cache.count == old(cache.count)
        invariant top == start + i && Marked() == before.marked
        invariant stack[..top] == before.stack + before.cache[..i]
      {
        stack[top] := cache.slots[i];
        top := top + 1;
        assert before.cache[..i + 1] == before.cache[..i] + [cache.slots[i]];
      }
      assert before.cache[..cache.count] == before.cache;
      cache.count := 0;
    }
  }
}
