/** The buffer pool of lib/logger.c: 4096 fixed buffers circulate between a free stack, a ring of
    queued entries and the batch the logger thread is writing. */
module LogRing {
  import opened Tally

  const POOL_SIZE: nat := 4096
  const BATCH_SIZE: nat := 128

  /** Buffers are named by index; `texts` is what each buffer holds. */
  datatype Ring = Ring(free: seq<nat>, queued: seq<nat>, inflight: seq<nat>, texts: seq<string>)

  function Initial(texts: seq<string>): Ring {
    Ring(seq(POOL_SIZE, i => i), [], [], texts)
  }

  /** Every buffer is in exactly one of the three places. */
  ghost predicate Balanced(ring: Ring) {
    && |ring.texts| == POOL_SIZE
    && forall b: nat :: (multiset(ring.free) + multiset(ring.queued) + multiset(ring.inflight))[b] == if b < POOL_SIZE then 1 else 0
  }

  predicate HasRoom(ring: Ring) {
    |ring.free| > 0 && |ring.queued| < POOL_SIZE
  }

  /** `try_enqueue_log` once it holds the lock and there is room. */
  function Push(ring: Ring, text: string): Ring
    requires ring.free != [] && ring.free[|ring.free| - 1] < |ring.texts|
  {
    var last := |ring.free| - 1;
    var b := ring.free[last];
    Ring(ring.free[..last], ring.queued + [b], ring.inflight, ring.texts[b := text])
  }

  /** The dequeue loop of `logger_thread_func`. */
  function Grab(ring: Ring): Ring {
    var n := Min(|ring.queued|, BATCH_SIZE);
    ring.(queued := ring.queued[n..], inflight := ring.queued[..n])
  }

  /** The store loop of `return_batch_to_pool`: an entry that finds the stack full is dropped. */
  function StoreAll(free: seq<nat>, batch: seq<nat>): seq<nat>
    decreases |batch|
  {
    if batch == [] then free
    else
      var stored := StoreAll(free, batch[..|batch| - 1]);
      if |stored| < POOL_SIZE then stored + [batch[|batch| - 1]] else stored
  }

  function GiveBack(ring: Ring): Ring {
    ring.(free := StoreAll(ring.free, ring.inflight), inflight := [])
  }

  /** The entries held by a list of buffers. */
  function TextsOf(ring: Ring, buffers: seq<nat>): seq<string>
    requires |ring.texts| == POOL_SIZE
  {
    seq(|buffers|, i requires 0 <= i < |buffers| => if buffers[i] < POOL_SIZE then ring.texts[buffers[i]] else "")
  }

  // ---------- the partition is kept ----------

  lemma InitialBalanced(texts: seq<string>)
    requires |texts| == POOL_SIZE
    ensures Balanced(Initial(texts))
  {
    forall b: nat ensures multiset(Initial(texts).free)[b] == if b < POOL_SIZE then 1 else 0 {
      EachOnce(Initial(texts).free, b);
    }
  }

  lemma {:induction false} RangeSize(m: multiset<nat>, n: nat)
    requires forall b: nat :: m[b] == if b < n then 1 else 0
    ensures |m| == n
    decreases n
  {
    if n == 0 {
      assert m == multiset{};
    } else {
      var rest := m - multiset{n - 1};
      forall b: nat ensures rest[b] == if b < n - 1 then 1 else 0 {
        assert m[b] == if b < n then 1 else 0;
      }
      assert m[n - 1] == 1;
      assert m == rest + multiset{n - 1};
      RangeSize(rest, n - 1);
    }
  }

  lemma BalancedSize(ring: Ring)
    requires Balanced(ring)
    ensures |ring.free| + |ring.queued| + |ring.inflight| == POOL_SIZE
  {
    RangeSize(multiset(ring.free) + multiset(ring.queued) + multiset(ring.inflight), POOL_SIZE);
  }

  lemma BufferExists(ring: Ring, b: nat)
    requires Balanced(ring) && (b in ring.free || b in ring.queued || b in ring.inflight)
    ensures b < POOL_SIZE
  {
    assert (multiset(ring.free) + multiset(ring.queued) + multiset(ring.inflight))[b] > 0;
  }

  lemma TopExists(ring: Ring)
    requires Balanced(ring) && ring.free != []
    ensures ring.free[|ring.free| - 1] < POOL_SIZE
  {
    BufferExists(ring, ring.free[|ring.free| - 1]);
  }

  lemma PushBalanced(ring: Ring, text: string)
    requires Balanced(ring) && ring.free != []
    ensures ring.free[|ring.free| - 1] < |ring.texts| && Balanced(Push(ring, text))
  {
    TopExists(ring);
    var last := |ring.free| - 1;
    assert ring.free == ring.free[..last] + [ring.free[last]];
    var ring' := Push(ring, text);
    assert multiset(ring'.free) + multiset(ring'.queued) + multiset(ring'.inflight)
        == multiset(ring.free) + multiset(ring.queued) + multiset(ring.inflight);
  }

  lemma GrabBalanced(ring: Ring)
    requires Balanced(ring) && ring.inflight == []
    ensures Balanced(Grab(ring))
  {
    var n := Min(|ring.queued|, BATCH_SIZE);
    var ring' := Grab(ring);
    assert ring.queued == ring.queued[..n] + ring.queued[n..];
    assert multiset(ring'.free) + multiset(ring'.queued) + multiset(ring'.inflight)
        == multiset(ring.free) + multiset(ring.queued) + multiset(ring.inflight);
  }

  lemma {:induction false} StoreAllFits(free: seq<nat>, batch: seq<nat>)
    requires |free| + |batch| <= POOL_SIZE
    ensures StoreAll(free, batch) == free + batch
    decreases |batch|
  {
    if batch != [] {
      var last := |batch| - 1;
      StoreAllFits(free, batch[..last]);
      assert batch == batch[..last] + [batch[last]];
      assert (free + batch[..last]) + [batch[last]] == free + batch;
    } else {
      assert free + batch == free;
    }
  }

  /** The overflow guard never drops a buffer. */
  lemma GiveBackBalanced(ring: Ring)
    requires Balanced(ring)
    ensures GiveBack(ring).free == ring.free + ring.inflight
    ensures Balanced(GiveBack(ring))
  {
    BalancedSize(ring);
    StoreAllFits(ring.free, ring.inflight);
    var ring' := GiveBack(ring);
    assert multiset(ring'.free) + multiset(ring'.queued) + multiset(ring'.inflight)
        == multiset(ring.free) + multiset(ring.queued) + multiset(ring.inflight);
  }

  /** A free buffer is the only reason an entry can be refused: the ring is never full while one exists. */
  lemma RoomIsAFreeBuffer(ring: Ring)
    requires Balanced(ring)
    ensures HasRoom(ring) <==> ring.free != []
  {
    BalancedSize(ring);
  }

  /** Writing the new entry does not disturb an entry that is queued or being written. */
  lemma PushKeepsOthers(ring: Ring, text: string)
    requires Balanced(ring) && ring.free != []
    ensures ring.free[|ring.free| - 1] < |ring.texts|
    ensures var ring' := Push(ring, text);
      && |ring'.texts| == POOL_SIZE
      && TextsOf(ring', ring'.queued) == TextsOf(ring, ring.queued) + [text]
      && TextsOf(ring', ring'.inflight) == TextsOf(ring, ring.inflight)
  {
    TopExists(ring);
    var ring' := Push(ring, text);
    var b := ring.free[|ring.free| - 1];
    assert b !in ring.queued && b !in ring.inflight by {
      assert (multiset(ring.free) + multiset(ring.queued) + multiset(ring.inflight))[b] == 1;
      assert b in multiset(ring.free);
      assert multiset(ring.queued)[b] == 0 && multiset(ring.inflight)[b] == 0;
    }
  }

  // ---------- as it runs ----------

  /** `count` slots of the ring from `tail` on. */
  function Slice(queue: seq<nat>, tail: nat, count: nat): seq<nat>
    requires |queue| == POOL_SIZE
  {
    seq(count, i requires 0 <= i < count => queue[(tail + i) % POOL_SIZE])
  }

  lemma SlicePush(queue: seq<nat>, tail: nat, count: nat, entry: nat)
    requires |queue| == POOL_SIZE && tail < POOL_SIZE && count < POOL_SIZE
    ensures Slice(queue[(tail + count) % POOL_SIZE := entry], tail, count + 1) == Slice(queue, tail, count) + [entry]
  {
    var pushed := queue[(tail + count) % POOL_SIZE := entry];
    forall i | 0 <= i < count ensures Slice(pushed, tail, count + 1)[i] == Slice(queue, tail, count)[i] {
      assert (tail + i) % POOL_SIZE != (tail + count) % POOL_SIZE;
    }
  }

  lemma SlicePop(queue: seq<nat>, tail: nat, count: nat)
    requires |queue| == POOL_SIZE && tail < POOL_SIZE && 0 < count <= POOL_SIZE
    ensures Slice(queue, tail, count) == [queue[tail]] + Slice(queue, (tail + 1) % POOL_SIZE, count - 1)
  {
    var rest := Slice(queue, (tail + 1) % POOL_SIZE, count - 1);
    forall i | 0 <= i < count - 1 ensures rest[i] == Slice(queue, tail, count)[i + 1] {
      assert ((tail + 1) % POOL_SIZE + i) % POOL_SIZE == (tail + (i + 1)) % POOL_SIZE;
    }
  }

  /** One turn of the dequeue loop moves the oldest entry into the batch and leaves the head alone. */
  lemma DequeueTurn(all: seq<nat>, batch: seq<nat>, queue: seq<nat>, tail: nat, count: nat)
    requires |queue| == POOL_SIZE && tail < POOL_SIZE && 0 < count <= POOL_SIZE && all == batch + Slice(queue, tail, count)
    ensures all == (batch + [queue[tail]]) + Slice(queue, (tail + 1) % POOL_SIZE, count - 1)
    ensures ((tail + 1) % POOL_SIZE + (count - 1)) % POOL_SIZE == (tail + count) % POOL_SIZE
  {
    hide Slice;
    SlicePop(queue, tail, count);
  }

  lemma BatchIsGrabbed(all: seq<nat>, batch: seq<nat>, queue: seq<nat>, tail: nat, count: nat)
    requires |queue| == POOL_SIZE && tail < POOL_SIZE && count <= POOL_SIZE && all == batch + Slice(queue, tail, count)
    requires |batch| <= BATCH_SIZE && (count == 0 || |batch| == BATCH_SIZE)
    ensures var n := Min(|all|, BATCH_SIZE); all[..n] == batch && all[n..] == Slice(queue, tail, count)
  {
  }

  class Logger {
    const freeStack: array<nat>
    const queue: array<nat>
    const entries: array<string>
    var freeTop: nat
    var head: nat
    var tail: nat
    var count: nat
    ghost var inflight: seq<nat>

    ghost predicate Shaped()
      reads this
    {
      && freeStack.Length == POOL_SIZE && queue.Length == POOL_SIZE && entries.Length == POOL_SIZE
      && freeStack != queue
      && freeTop <= POOL_SIZE && count <= POOL_SIZE
      && tail < POOL_SIZE && head == (tail + count) % POOL_SIZE
    }

    ghost function View(): Ring
      requires Shaped()
      reads this, freeStack, queue, entries
    {
      Ring(freeStack[..freeTop], Slice(queue[..], tail, count), inflight, entries[..])
    }

    ghost predicate Valid()
      reads this, freeStack, queue, entries
    {
      Shaped() && Balanced(View())
    }

    constructor ()
      ensures Valid() && fresh(freeStack) && fresh(queue) && fresh(entries)
      ensures View().free == seq(POOL_SIZE, i => i) && View().queued == [] && inflight == []
    {
      var stack, ring := new nat[POOL_SIZE], new nat[POOL_SIZE];
      for i := 0 to POOL_SIZE
        invariant forall j :: 0 <= j < i ==> stack[j] == j
      {
        stack[i] := i;
      }
      freeStack, queue := stack, ring;
      entries := new string[POOL_SIZE](_ => "");
      freeTop, head, tail, count, inflight := POOL_SIZE, 0, 0, 0, [];
      new;
      assert freeStack[..freeTop] == seq(POOL_SIZE, i => i);
      assert View() == Initial(entries[..]);
      InitialBalanced(entries[..]);
    }

    /** `try_enqueue_log`; `running` is the flag it read before taking the lock. */
    method TryEnqueue(text: string, running: bool) returns (enqueued: bool, signal: bool)
      requires Valid()
      modifies this`freeTop, this`head, this`count, queue, entries
      ensures Valid()
      ensures enqueued == (running && old(View().free) != [])
      ensures enqueued ==> old(View().free)[|old(View().free)| - 1] < POOL_SIZE && View() == Push(old(View()), text)
      ensures !enqueued ==> View() == old(View())
      ensures signal == (enqueued && old(View().queued) == [])
    {
      enqueued, signal := false, false;
      if !running {
        return;
      }
      ghost var before := View();
      RoomIsAFreeBuffer(before);
      if freeTop > 0 && count < POOL_SIZE {
        TopExists(before);
        PushBalanced(before, text);
        freeTop := freeTop - 1;
        var entry := freeStack[freeTop];
        entries[entry] := text;
        queue[head] := entry;
        head := (head + 1) % POOL_SIZE;
        count := count + 1;
        signal := count == 1;
        enqueued := true;
        SlicePush(old(queue[..]), tail, old(count), entry);
        assert queue[..] == old(queue[..])[old(head) := entry];
        assert View() == Push(before, text);
      }
    }

    /** The dequeue loop of `logger_thread_func`. */
    method TakeBatch() returns (batch: seq<nat>)
      requires Valid() && inflight == []
      modifies this`tail, this`count, this`inflight
      ensures Valid() && View() == Grab(old(View())) && batch == inflight
      ensures |batch| == if old(count) < 128 then old(count) else 128
    {
      hide Balanced;
      ghost var before := View();
      assert |before.queued| == count;
      hide Slice;
      GrabBalanced(before);
      batch := [];
      while count > 0 && |batch| < BATCH_SIZE
        invariant Shaped() && inflight == [] && head == old(head)
        invariant |batch| <= BATCH_SIZE && before.queued == batch + Slice(queue[..], tail, count)
        decreases count
      {
        DequeueTurn(before.queued, batch, queue[..], tail, count);
        batch := batch + [queue[tail]];
        tail := (tail + 1) % POOL_SIZE;
        count := count - 1;
      }
      inflight := batch;
      BatchIsGrabbed(before.queued, batch, queue[..], tail, count);
    }

    /** `return_batch_to_pool`. */
    method ReturnBatch(batch: seq<nat>)
      requires Valid() && batch == inflight
      modifies this`freeTop, this`inflight, freeStack
      ensures Valid() && View() == GiveBack(old(View()))
    {
      hide Balanced;
      ghost var before := View();
      GiveBackBalanced(before);
      for i := 0 to |batch|
        invariant Shaped() && inflight == batch && View().queued == before.queued && View().texts == before.texts
        invariant freeStack[..freeTop] == StoreAll(before.free, batch[..i])
      {
        assert batch[..i + 1][..i] == batch[..i];
        if freeTop < POOL_SIZE {
          freeStack[freeTop] := batch[i];
          freeTop := freeTop + 1;
        }
      }
      assert batch[..|batch|] == batch;
      inflight := [];
    }
  }
}
