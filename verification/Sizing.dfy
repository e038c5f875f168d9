/** Start-up arithmetic: how many reactors and workers run and how large the task slab is. */
module Sizing {

  datatype Split = Split(fast: nat, slow: nat)

  /** One reactor per online core; an unusable core count becomes 4. */
  function Reactors(onlineCores: int): (n: nat)
    ensures 1 <= n <= 64
    ensures 1 <= onlineCores <= 64 ==> n == onlineCores
  {
    if onlineCores <= 0 || onlineCores > 64 then 4 else onlineCores
  }

  function BackgroundWorkers(configured: nat, reactors: nat): nat {
    if configured > 0 then configured else reactors * 2
  }

  /** A percentage of the workers, rounded down, is at most all of them. */
  function Share(workers: nat, percentage: nat): (n: nat)
    requires percentage <= 100
    ensures n <= workers
  {
    var product := workers * percentage;
    assert product <= workers * 100;
    product / 100
  }

  /** The bulkhead: `percentage` of the workers serve the fast queue. Both pools get a worker, and
      the pools together have exactly `workers` threads except that a single worker becomes two. */
  function SplitWorkers(workers: nat, percentage: nat): (s: Split)
    requires workers >= 1 && percentage <= 100
    ensures s.fast >= 1 && s.slow >= 1
    ensures s.fast + s.slow == (if workers == 1 then 2 else workers)
    ensures var share := workers * percentage / 100;
      s.fast == if share == 0 then 1 else if share == workers && workers > 1 then workers - 1 else share
  {
    var share := Share(workers, percentage);
    var atLeastOne := if share == 0 then 1 else share;
    var fast := if atLeastOne == workers && workers > 1 then workers - 1 else atLeastOne;
    Split(fast, if workers > fast then workers - fast else 1)
  }

  function SlabSize(queueLimit: nat, workers: nat): nat {
    (if queueLimit == 0 then 100000 else queueLimit) * 2 + workers + 10000
  }
}
