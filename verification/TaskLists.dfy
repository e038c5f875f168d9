/** The intrusive linked queues: `pool_t` of lib/worker_pool.c and `reactor_queue_t` of lib/server.c.
    A task is its own list node, through its `next` field. */
module TaskLists {
  import opened WorkQueue

  class Task {
    const id: nat
    var next: Task?
    var reactorId: nat

    constructor (id: nat)
      ensures this.id == id && next == null
    {
      this.id := id;
      next := null;
      reactorId := 0;
    }
  }

  /** `nodes` are the tasks reached from `head`, in order, and `tail` is the last of them. */
  ghost predicate Linked(nodes: seq<Task>, head: Task?, tail: Task?)
    reads nodes
  {
    && (forall i, j :: 0 <= i < j < |nodes| ==> nodes[i] != nodes[j])
    && (forall i :: 0 <= i < |nodes| - 1 ==> nodes[i].next == nodes[i + 1])
    && (if nodes == [] then head == null && tail == null
        else head == nodes[0] && tail == nodes[|nodes| - 1] && nodes[|nodes| - 1].next == null)
  }

  class WorkerPool {
    var head: Task?
    var tail: Task?
    var size: nat
    var shutdown: bool
    ghost var nodes: seq<Task>

    ghost predicate Valid()
      reads this, nodes
    {
      Linked(nodes, head, tail) && size == |nodes|
    }

    constructor ()
      ensures Valid() && nodes == [] && !shutdown
    {
      head, tail, size, shutdown, nodes := null, null, 0, false, [];
    }

    /** The critical section of `worker_pool_enqueue`. */
    method Enqueue(task: Task, limit: nat) returns (accepted: bool)
      requires Valid() && task !in nodes
      modifies this`head, this`tail, this`size, this`nodes, task`next, nodes
      ensures Valid()
      ensures accepted == Accepts(shutdown, limit, old(|nodes|))
      ensures nodes == if accepted then old(nodes) + [task] else old(nodes)
    {
      if shutdown {
        return false;
      }
      if limit > 0 && size >= limit {
        return false;
      }
      task.next := null;
      if tail == null {
        tail := task;
        head := task;
      } else {
        tail.next := task;
        tail := task;
      }
      size := size + 1;
      nodes := nodes + [task];
      accepted := true;
    }

    /** One pass through the critical section of `worker_thread_main`. */
    method Next() returns (task: Task?, exit: bool)
      requires Valid()
      modifies this`head, this`tail, this`size, this`nodes
      ensures Valid()
      ensures
        match Poll(old(nodes), shutdown)
        case Sleep => task == null && !exit && nodes == old(nodes)
        case Exit => task == null && exit && nodes == old(nodes)
        case Run(t, rest) => task == t && !exit && nodes == rest
    {
      if head == null && !shutdown {
        return null, false;
      }
      if shutdown && head == null {
        return null, true;
      }
      task := head;
      head := task.next;
      if head == null {
        tail := null;
      }
      size := size - 1;
      nodes := nodes[1..];
      exit := false;
    }

    /** `worker_pool_stop` up to the unlock. */
    method RaiseShutdown()
      requires Valid()
      modifies this`shutdown
      ensures Valid() && shutdown
    {
      shutdown := true;
    }
  }

  class ReactorQueue {
    var head: Task?
    var tail: Task?
    ghost var nodes: seq<Task>

    ghost predicate Valid()
      reads this, nodes
    {
      Linked(nodes, head, tail)
    }

    constructor ()
      ensures Valid() && nodes == []
    {
      head, tail, nodes := null, null, [];
    }

    /** The critical section of `server_notify_task_done`; the caller writes the eventfd if the queue
        was empty. */
    method Notify(task: Task) returns (wasEmpty: bool)
      requires Valid() && task !in nodes
      modifies this, task`next, nodes
      ensures Valid() && nodes == old(nodes) + [task]
      ensures wasEmpty <==> old(nodes) == []
    {
      task.next := null;
      wasEmpty := tail == null;
      if wasEmpty {
        tail := task;
        head := task;
      } else {
        tail.next := task;
        tail := task;
      }
      nodes := nodes + [task];
    }

    /** `reactor_eventfd_cb` after draining the eventfd: takes the list and walks it. The link is read
        before the task is freed, so the walk survives the slab reusing the task's fields; every
        completed task is processed once, in completion order. */
    method DrainBatch() returns (processed: seq<Task>)
      requires Valid()
      modifies this, nodes
      ensures Valid() && nodes == []
      ensures processed == old(nodes)
    {
      var curr := head;
      ghost var batch := nodes;
      tail := null;
      head := null;
      nodes := [];
      processed := [];
      while curr != null
        invariant nodes == [] && head == null && tail == null
        invariant |processed| <= |batch| && processed == batch[..|processed|]
        invariant curr == if |processed| < |batch| then batch[|processed|] else null
        invariant forall i :: |processed| <= i < |batch| - 1 ==> batch[i].next == batch[i + 1]
        invariant |processed| < |batch| ==> batch[|batch| - 1].next == null
        invariant forall i, j :: 0 <= i < j < |batch| ==> batch[i] != batch[j]
        decreases |batch| - |processed|
      {
        var task := curr;
        curr := curr.next;
        processed := processed + [task];
        task.next := null;
        task.reactorId := 0;
      }
    }
  }
}
