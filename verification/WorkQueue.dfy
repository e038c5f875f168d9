/** The two decisions taken under a pool's mutex in lib/worker_pool.c, on the queue's contents. */
module WorkQueue {

  /** What a worker that holds the mutex does next. */
  datatype Verdict<T> = Sleep | Exit | Run(task: T, rest: seq<T>)

  /** `worker_pool_enqueue`: a pool in shutdown refuses, and so does a full queue; limit 0 is no limit. */
  predicate Accepts(shutdown: bool, limit: nat, length: nat) {
    !shutdown && !(limit > 0 && length >= limit)
  }

  /** `worker_thread_main`: the remaining work is finished before a shutdown is obeyed. */
  function Poll<T>(queue: seq<T>, shutdown: bool): Verdict<T> {
    if queue != [] then Run(queue[0], queue[1..])
    else if shutdown then Exit
    else Sleep
  }
}
