/** `Delayed::Command`: the option handlers of `initialize`, which update the
    command's fields one flag at a time, and `daemonize`, which walks the
    resolved topology and calls `run_process` once per worker. */
module Delayed {
  import opened RubyText
  import opened Pools
  import opened Topology

  /** `@options` before any flag is read: `quiet` on and the pid directory
      under the application root. */
  function DefaultOptions(railsRoot: string): (o: Options)
    ensures o.quiet == Some(true) && o.pidDir == Some(railsRoot + "/tmp/pids")
    ensures o.(quiet := None, pidDir := None) == NoOptions
  {
    NoOptions.(quiet := Some(true), pidDir := Some(railsRoot + "/tmp/pids"))
  }

  class Command {
    var options: Options
    var workerCount: int
    var monitor: bool
    var workerPools: Option<seq<Pool>>

    /** The state `initialize` sets up before the option parser runs. */
    constructor (railsRoot: string)
      ensures options == DefaultOptions(railsRoot)
      ensures workerCount == 1 && !monitor && workerPools == None
    {
      options := DefaultOptions(railsRoot);
      workerCount := 1;
      monitor := false;
      workerPools := None;
    }

    /** `--min-priority N`: stored as given. */
    method SetMinPriority(n: string)
      modifies this`options
      ensures options == old(options).(minPriority := Some(n))
    {
      options := options.(minPriority := Some(n));
    }

    /** `--max-priority N`: stored as given. */
    method SetMaxPriority(n: string)
      modifies this`options
      ensures options == old(options).(maxPriority := Some(n))
    {
      options := options.(maxPriority := Some(n));
    }

    /** `-n`, `--number_of_workers=workers`: `to_i`, so text that is not a
        number gives 0 workers (the `rescue 1` never fires). */
    method SetNumberOfWorkers(text: string)
      modifies this`workerCount
      ensures workerCount == ToI(text)
    {
      workerCount := ToI(text);
    }

    /** `--pid-dir=DIR`. */
    method SetPidDir(dir: string)
      modifies this`options
      ensures options == old(options).(pidDir := Some(dir))
    {
      options := options.(pidDir := Some(dir));
    }

    /** `-i`, `--identifier=n`: stored as text. */
    method SetIdentifier(n: string)
      modifies this`options
      ensures options == old(options).(identifier := Some(n))
    {
      options := options.(identifier := Some(n));
    }

    /** `-m`, `--monitor`. */
    method SetMonitor()
      modifies this`monitor
      ensures monitor
    {
      monitor := true;
    }

    /** `--sleep-delay N`: the only pass-through option converted with `to_i`. */
    method SetSleepDelay(n: string)
      modifies this`options
      ensures options == old(options).(sleepDelay := Some(ToI(n)))
    {
      options := options.(sleepDelay := Some(ToI(n)));
    }

    /** `--read-ahead N`: stored as given. */
    method SetReadAhead(n: string)
      modifies this`options
      ensures options == old(options).(readAhead := Some(n))
    {
      options := options.(readAhead := Some(n));
    }

    /** `-p`, `--prefix NAME`. */
    method SetPrefix(prefix: string)
      modifies this`options
      ensures options == old(options).(prefix := Some(prefix))
    {
      options := options.(prefix := Some(prefix));
    }

    /** `--queues=queues`: split on `,`; replaces whatever `--queue` or
        `--queues` stored before. */
    method SetQueues(queues: string)
      modifies this`options
      ensures options == old(options).(queues := Some(Split(queues, ',')))
    {
      options := options.(queues := Some(Split(queues, ',')));
    }

    /** `--queue=queue`: the same effect as `--queues`. */
    method SetQueue(queue: string)
      modifies this`options
      ensures options == old(options).(queues := Some(Split(queue, ',')))
    {
      options := options.(queues := Some(Split(queue, ',')));
    }

    /** `--pools=...`: `parse_worker_pools` replaces any earlier pool list;
        even the empty text leaves a (present, empty) list. */
    method SetPools(pools: string)
      modifies this`workerPools
      ensures workerPools == Some(ParseWorkerPools(pools))
    {
      workerPools := Some(ParseWorkerPools(pools));
    }

    /** `--exit-on-complete`. */
    method SetExitOnComplete()
      modifies this`options
      ensures options == old(options).(exitOnComplete := Some(true))
    {
      options := options.(exitOnComplete := Some(true));
    }

    /** `daemonize`, with each `run_process(name, options)` call recorded as
        an appended launch: pools first, then the identifier/count conflict,
        then one identified worker, then `worker_count` workers. */
    method Daemonize() returns (outcome: Outcome)
      ensures outcome == Resolve(options, workerCount, workerPools)
    {
      if workerPools.Some? {
        var log := LaunchPools(options, workerPools.value);
        outcome := Launched(log);
      } else if workerCount > 1 && options.identifier.Some? {
        outcome := ArgumentError(ConflictMessage);
      } else if workerCount == 1 && options.identifier.Some? {
        var processName := ProcessBase + "." + options.identifier.value;
        outcome := Launched([Launch(processName, options)]);
      } else {
        var log := LaunchWorkers(options, workerCount);
        outcome := Launched(log);
      }
    }
  }

  /** The pool branch of `daemonize`: pools in order, `count.times` each,
      with one running `worker_index` across all pools. */
  method LaunchPools(base: Options, pools: seq<Pool>) returns (log: seq<Launch>)
    ensures log == PoolLaunches(base, pools)
  {
    log := [];
    var workerIndex := 0;
    var p := 0;
    while p < |pools|
      invariant 0 <= p <= |pools|
      invariant log == PoolLaunches(base, pools[..p])
      invariant workerIndex == TotalWorkers(pools[..p])
    {
      var queues := pools[p].queues;
      var count := pools[p].count;
      var poolOptions := WithQueues(base, queues);
      ghost var start := workerIndex;
      var k := 0;
      while k < count
        invariant 0 <= k <= Runs(count)
        invariant workerIndex == start + k
        invariant log == PoolLaunches(base, pools[..p]) + PoolBlock(base, pools[p], start)[..k]
      {
        var processName := IndexedName(workerIndex);
        PoolBlockStep(base, pools[p], start, k);
        log := log + [Launch(processName, poolOptions)];
        workerIndex := workerIndex + 1;
        k := k + 1;
      }
      assert PoolBlock(base, pools[p], start)[..k] == PoolBlock(base, pools[p], start);
      PoolLaunchesStep(base, pools, p);
      p := p + 1;
    }
    assert pools[..|pools|] == pools;
  }

  /** The last branch of `daemonize`: `worker_count.times`, all with the
      command's own options. */
  method LaunchWorkers(base: Options, workerCount: int) returns (log: seq<Launch>)
    ensures log == CountLaunches(base, workerCount)
  {
    log := [];
    var workerIndex := 0;
    while workerIndex < workerCount
      invariant 0 <= workerIndex <= Runs(workerCount)
      invariant log == CountLaunches(base, workerCount)[..workerIndex]
    {
      var processName := if workerCount == 1 then ProcessBase else IndexedName(workerIndex);
      CountLaunchesStep(base, workerCount, workerIndex);
      log := log + [Launch(processName, base)];
      workerIndex := workerIndex + 1;
    }
    assert CountLaunches(base, workerCount)[..workerIndex] == CountLaunches(base, workerCount);
  }

  // -----------------------------------------------------------------------
  // What a launched process hands to the worker runtime
  // -----------------------------------------------------------------------

  /** The arguments of `Delayed::Worker.new` and the worker's name prefix,
      together with the pid directory given to the process supervisor. */
  datatype WorkerStart = WorkerStart(pidDir: Option<string>, namePrefix: string, workerOptions: Options)

  /** `run_process` as written: the pid directory comes from the launch's
      options, but the block calls `run process_name` without them, so
      `run`'s `options` parameter keeps its default `{}`. */
  function StartAsWritten(l: Launch): WorkerStart
  {
    WorkerStart(l.options.pidDir, l.name + " ", NoOptions)
  }

  /** `run_process` passing its options on to `run`, as the computation of
      per-pool options in `daemonize` requires. */
  function Start(l: Launch): WorkerStart
  {
    WorkerStart(l.options.pidDir, l.name + " ", l.options)
  }

  /** As written, a worker of the pool `a:1` is started with no queue
      filter at all, although its launch carries the queue list ["a"]. */
  lemma AsWrittenLosesPoolQueues()
    ensures var o := Resolve(NoOptions, 1, Some([Pool(["a"], 1)]));
      && o.Launched? && |o.log| == 1
      && o.log[0].options.queues == Some(["a"])
      && StartAsWritten(o.log[0]).workerOptions.queues == None
  {
    var ps := [Pool(["a"], 1)];
    assert ps[..0] == [];
    PoolLaunchesShape(NoOptions, ps);
  }

  /** Passing the options on, every pool-mode worker runs with exactly its
      pool's queue list and every other option of the command unchanged. */
  lemma StartedWorkersServeTheirPool(base: Options, ps: seq<Pool>, i: nat)
    requires i < TotalWorkers(ps)
    ensures var o := Resolve(base, 0, Some(ps));
      && o.Launched? && i < |o.log|
      && Start(o.log[i]).workerOptions.queues == Some(ps[PoolOf(ps, i)].queues)
      && Start(o.log[i]).workerOptions.(queues := base.queues) == base
      && Start(o.log[i]).pidDir == base.pidDir
  {
    PoolLaunchesShape(base, ps);
  }
}
