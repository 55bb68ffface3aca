/** Which worker processes `Delayed::Command#daemonize` launches: the
    ordered list of (process name, options) pairs it hands to `run_process`,
    or the ArgumentError it raises instead. */
module Topology {
  import opened RubyText
  import opened Pools

  /** The `@options` hash of the command: every key may be absent. */
  datatype Options = Options(
    quiet: Option<bool>,
    pidDir: Option<string>,
    minPriority: Option<string>,
    maxPriority: Option<string>,
    identifier: Option<string>,
    sleepDelay: Option<int>,
    readAhead: Option<string>,
    prefix: Option<string>,
    queues: Option<seq<string>>,
    exitOnComplete: Option<bool>)

  /** The empty hash `{}`. */
  const NoOptions := Options(None, None, None, None, None, None, None, None, None, None)

  /** One `run_process(process_name, options)` call. */
  datatype Launch = Launch(name: string, options: Options)

  datatype Outcome = Launched(log: seq<Launch>) | ArgumentError(message: string)

  const ProcessBase := "delayed_job"

  const ConflictMessage := "Cannot specify both --number-of-workers and --identifier"

  /** `"delayed_job.#{worker_index}"`. */
  function IndexedName(i: int): string
  {
    ProcessBase + "." + IntToString(i)
  }

  /** How many times `count.times` runs its block. */
  function Runs(count: int): nat
  {
    if count > 0 then count else 0
  }

  /** The number of workers a pool list launches. */
  function TotalWorkers(ps: seq<Pool>): nat
  {
    if ps == [] then 0 else TotalWorkers(ps[..|ps| - 1]) + Runs(ps[|ps| - 1].count)
  }

  /** `@options.merge(:queues => queues)`. */
  function WithQueues(base: Options, queues: seq<string>): Options
  {
    base.(queues := Some(queues))
  }

  /** The launches of one pool whose first worker has index `start`. */
  function PoolBlock(base: Options, p: Pool, start: int): seq<Launch>
  {
    seq(Runs(p.count), k => Launch(IndexedName(start + k), WithQueues(base, p.queues)))
  }

  /** The launches of a whole pool list, pool after pool: one per worker. */
  function PoolLaunches(base: Options, ps: seq<Pool>): (log: seq<Launch>)
    ensures |log| == TotalWorkers(ps)
  {
    if ps == [] then []
    else PoolLaunches(base, ps[..|ps| - 1]) + PoolBlock(base, ps[|ps| - 1], TotalWorkers(ps[..|ps| - 1]))
  }

  /** `worker_count.times`: one name-less `delayed_job` for a count of 1,
      indexed names otherwise; none for a count of 0 or less. */
  function CountLaunches(base: Options, workerCount: int): (log: seq<Launch>)
    ensures |log| == Runs(workerCount)
    ensures forall i :: 0 <= i < |log| ==> log[i].options == base
  {
    seq(Runs(workerCount), i => Launch(if workerCount == 1 then ProcessBase else IndexedName(i), base))
  }

  /** One more counted worker is the next launch. */
  lemma CountLaunchesStep(base: Options, workerCount: int, i: nat)
    requires i < Runs(workerCount)
    ensures CountLaunches(base, workerCount)[..i + 1]
         == CountLaunches(base, workerCount)[..i]
            + [Launch(if workerCount == 1 then ProcessBase else IndexedName(i), base)]
  {
  }

  /** The four launch modes of `daemonize`, in the order the code tests them.
      Only the conflict raises, and never with pools; every launch gets the
      command's options, with the queue list replaced only in pool mode. */
  function Resolve(base: Options, workerCount: int, workerPools: Option<seq<Pool>>): (o: Outcome)
    ensures o.ArgumentError? ==> workerPools.None? && o.message == ConflictMessage
    ensures o.Launched? ==> forall i :: 0 <= i < |o.log| ==>
      o.log[i].options.(queues := base.queues) == base
    ensures o.Launched? && workerPools.None? ==> forall i :: 0 <= i < |o.log| ==> o.log[i].options == base
  {
    match workerPools
    case Some(ps) =>
      PoolLaunchesShape(base, ps);
      Launched(PoolLaunches(base, ps))
    case None =>
      if workerCount > 1 && base.identifier.Some? then ArgumentError(ConflictMessage)
      else if workerCount == 1 && base.identifier.Some? then
        Launched([Launch(ProcessBase + "." + base.identifier.value, base)])
      else Launched(CountLaunches(base, workerCount))
  }

  // ---------------------------------------------------------------------
  // Pool mode
  // ---------------------------------------------------------------------

  lemma {:induction false} TotalWorkersMonotone(ps: seq<Pool>, j: nat, k: nat)
    requires j <= k <= |ps|
    ensures TotalWorkers(ps[..j]) <= TotalWorkers(ps[..k])
    decreases k - j
  {
    if j < k {
      TotalWorkersMonotone(ps, j, k - 1);
      assert ps[..k][..k - 1] == ps[..k - 1];
    }
  }

  /** One more worker of a pool is the next launch of its block. */
  lemma PoolBlockStep(base: Options, p: Pool, start: int, k: nat)
    requires k < Runs(p.count)
    ensures PoolBlock(base, p, start)[..k + 1]
         == PoolBlock(base, p, start)[..k] + [Launch(IndexedName(start + k), WithQueues(base, p.queues))]
  {
  }

  /** Walking one more pool appends that pool's block and advances the
      running index by its number of workers. */
  lemma PoolLaunchesStep(base: Options, ps: seq<Pool>, p: nat)
    requires p < |ps|
    ensures PoolLaunches(base, ps[..p + 1])
         == PoolLaunches(base, ps[..p]) + PoolBlock(base, ps[p], TotalWorkers(ps[..p]))
    ensures TotalWorkers(ps[..p + 1]) == TotalWorkers(ps[..p]) + Runs(ps[p].count)
  {
    assert ps[..p + 1][..p] == ps[..p];
  }

  /** The pool that worker `i` belongs to: the one whose index range
      `TotalWorkers(ps[..j]) <= i < TotalWorkers(ps[..j + 1])` holds `i`. */
  function PoolOf(ps: seq<Pool>, i: nat): (j: nat)
    requires i < TotalWorkers(ps)
    ensures j < |ps|
    ensures TotalWorkers(ps[..j]) <= i < TotalWorkers(ps[..j + 1])
    ensures Runs(ps[j].count) > 0
  {
    var n := |ps| - 1;
    assert ps[..n + 1] == ps;
    if i >= TotalWorkers(ps[..n]) then n
    else
      var j := PoolOf(ps[..n], i);
      assert ps[..n][..j] == ps[..j] && ps[..n][..j + 1] == ps[..j + 1];
      j
  }

  /** Launch `i` of pool mode, one index at a time. */
  lemma {:induction false} PoolLaunchAt(base: Options, ps: seq<Pool>, i: nat)
    requires i < TotalWorkers(ps)
    ensures |PoolLaunches(base, ps)| == TotalWorkers(ps)
    ensures PoolLaunches(base, ps)[i] == Launch(IndexedName(i), WithQueues(base, ps[PoolOf(ps, i)].queues))
  {
    var n := |ps| - 1;
    var front := ps[..n];
    var start := TotalWorkers(front);
    if i < start {
      PoolLaunchAt(base, front, i);
      assert PoolOf(ps, i) == PoolOf(front, i);
    } else {
      assert PoolOf(ps, i) == n;
      assert PoolLaunches(base, ps)[i] == PoolBlock(base, ps[n], start)[i - start];
    }
  }

  /** Pool mode launches exactly the sum of the positive pool counts;
      launch `i` is named `delayed_job.i` and runs with the base options
      whose queues are those of the pool that owns index `i`. */
  lemma {:induction false} PoolLaunchesShape(base: Options, ps: seq<Pool>)
    ensures |PoolLaunches(base, ps)| == TotalWorkers(ps)
    ensures forall i :: 0 <= i < |PoolLaunches(base, ps)| ==>
      PoolLaunches(base, ps)[i] == Launch(IndexedName(i), WithQueues(base, ps[PoolOf(ps, i)].queues))
  {
    forall i | 0 <= i < |PoolLaunches(base, ps)|
      ensures PoolLaunches(base, ps)[i] == Launch(IndexedName(i), WithQueues(base, ps[PoolOf(ps, i)].queues))
    {
      PoolLaunchAt(base, ps, i);
    }
  }

  /** Index ranges of the pools do not overlap, so the owner is unique. */
  lemma PoolOfUnique(ps: seq<Pool>, i: nat, j: nat)
    requires i < TotalWorkers(ps) && j < |ps|
    requires TotalWorkers(ps[..j]) <= i < TotalWorkers(ps[..j + 1])
    ensures PoolOf(ps, i) == j
  {
    var o := PoolOf(ps, i);
    if o < j {
      TotalWorkersMonotone(ps, o + 1, j);
    } else if j < o {
      TotalWorkersMonotone(ps, j + 1, o);
    }
  }

  /** Later launches never belong to earlier pools: workers follow pool order. */
  lemma PoolOfMonotone(ps: seq<Pool>, i: nat, i': nat)
    requires i <= i' < TotalWorkers(ps)
    ensures PoolOf(ps, i) <= PoolOf(ps, i')
  {
    var j, j' := PoolOf(ps, i), PoolOf(ps, i');
    if j' < j {
      TotalWorkersMonotone(ps, j' + 1, j);
    }
  }

  /** Every pool with a positive count gets its workers: the launches at
      `TotalWorkers(ps[..j]) + k` for `k < count` are pool `j`'s. */
  lemma PoolGetsItsWorkers(base: Options, ps: seq<Pool>, j: nat, k: nat)
    requires j < |ps| && k < Runs(ps[j].count)
    ensures TotalWorkers(ps[..j]) + k < |PoolLaunches(base, ps)|
    ensures PoolLaunches(base, ps)[TotalWorkers(ps[..j]) + k].options == WithQueues(base, ps[j].queues)
  {
    var i := TotalWorkers(ps[..j]) + k;
    PoolRange(ps, j, k);
    LaunchInRange(base, ps, i, j);
  }

  /** A launch whose index lies in pool `j`'s range runs with pool `j`'s queues. */
  lemma LaunchInRange(base: Options, ps: seq<Pool>, i: nat, j: nat)
    requires i < TotalWorkers(ps) && j < |ps|
    requires TotalWorkers(ps[..j]) <= i < TotalWorkers(ps[..j + 1])
    ensures i < |PoolLaunches(base, ps)|
    ensures PoolLaunches(base, ps)[i].options == WithQueues(base, ps[j].queues)
  {
    PoolOfUnique(ps, i, j);
    PoolLaunchAt(base, ps, i);
  }

  /** The `k`-th worker of pool `j` lies in that pool's index range. */
  lemma PoolRange(ps: seq<Pool>, j: nat, k: nat)
    requires j < |ps| && k < Runs(ps[j].count)
    ensures TotalWorkers(ps[..j]) <= TotalWorkers(ps[..j]) + k < TotalWorkers(ps[..j + 1])
    ensures TotalWorkers(ps[..j + 1]) <= TotalWorkers(ps)
  {
    assert ps[..j + 1][..j] == ps[..j];
    TotalWorkersMonotone(ps, j + 1, |ps|);
    assert ps[..|ps|] == ps;
  }

  lemma IndexedNameInjective(i: int, j: int)
    requires IndexedName(i) == IndexedName(j)
    ensures i == j
  {
    var n := |ProcessBase + "."|;
    assert IndexedName(i)[n..] == IntToString(i);
    assert IndexedName(j)[n..] == IntToString(j);
    IntToStringInjective(i, j);
  }

  /** No two pool-mode workers share a process name (and so a pid file). */
  lemma PoolNamesDistinct(base: Options, ps: seq<Pool>, i: nat, j: nat)
    requires i < j < |PoolLaunches(base, ps)|
    ensures PoolLaunches(base, ps)[i].name != PoolLaunches(base, ps)[j].name
  {
    PoolLaunchesShape(base, ps);
    if IndexedName(i) == IndexedName(j) {
      IndexedNameInjective(i, j);
    }
  }

  /** With pools set, the worker count and the identifier decide nothing:
      no error, and the same names for any count. */
  lemma PoolModeIgnoresCountAndIdentifier(base: Options, ps: seq<Pool>, c1: int, c2: int, id: Option<string>)
    ensures Resolve(base, c1, Some(ps)).Launched?
    ensures |Resolve(base, c1, Some(ps)).log| == TotalWorkers(ps)
    ensures var a := Resolve(base, c1, Some(ps)).log;
            var b := Resolve(base.(identifier := id), c2, Some(ps)).log;
            |a| == |b| && forall i :: 0 <= i < |a| ==> a[i].name == b[i].name
  {
    PoolLaunchesShape(base, ps);
    PoolLaunchesShape(base.(identifier := id), ps);
  }

  // ---------------------------------------------------------------------
  // The modes without pools
  // ---------------------------------------------------------------------

  /** Without pools, the conflict error happens exactly when more than one
      worker and an identifier are both asked for; then nothing is launched. */
  lemma ConflictExactly(base: Options, workerCount: int)
    ensures Resolve(base, workerCount, None).ArgumentError?
        <==> workerCount > 1 && base.identifier.Some?
  {
  }

  /** One worker with an identifier: a single launch named after it. */
  lemma IdentifiedWorker(base: Options, id: string)
    requires base.identifier == Some(id)
    ensures Resolve(base, 1, None) == Launched([Launch("delayed_job." + id, base)])
  {
    assert ProcessBase + "." == "delayed_job.";
  }

  /** Otherwise `count` launches with the base options: plain `delayed_job`
      for one, `delayed_job.0` ... for more, none for a count of 0 or less. */
  lemma CountedWorkers(base: Options, workerCount: int)
    requires workerCount <= 0 || base.identifier.None?
    ensures Resolve(base, workerCount, None).Launched?
    ensures var log := Resolve(base, workerCount, None).log;
      && |log| == Runs(workerCount)
      && (workerCount == 1 ==> log == [Launch("delayed_job", base)])
      && (workerCount > 1 ==> forall i :: 0 <= i < |log| ==> log[i] == Launch(IndexedName(i), base))
  {
  }

  /** The counted workers' names are distinct too. */
  lemma CountNamesDistinct(base: Options, workerCount: int, i: nat, j: nat)
    requires i < j < |CountLaunches(base, workerCount)|
    ensures CountLaunches(base, workerCount)[i].name != CountLaunches(base, workerCount)[j].name
  {
    if IndexedName(i) == IndexedName(j) {
      IndexedNameInjective(i, j);
    }
  }
}
