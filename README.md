# delayed_job launcher: worker-pool topology

This project models in Dafny the launcher class `Delayed::Command` of
delayed_job (`lib/delayed/command.rb`). The launcher decides which
background worker processes to start. It has three parts:

- **`--pools` parser.** `parse_worker_pools` reads a string such as
  `a,b:2/*:1` and returns an ordered list of (queue list, worker count)
  pools (module `Pools`, file `pools.dfy`).
- **Topology resolution.** `daemonize` chooses one of four launch modes:
  - pools;
  - a worker-count/identifier conflict, which raises `ArgumentError`;
  - a single identified worker;
  - a plain worker count.

  It then calls `run_process(name, options)` once for each worker. The
  model records each call as an appended `Launch(name, options)`. The
  function `Topology.Resolve` gives the whole result, a launch log or an
  error. The method `Delayed.Command.Daemonize` picks the mode and is
  proved equal to that function. Its loops run in `Delayed.LaunchPools`
  and `Delayed.LaunchWorkers`, which keep the source's running
  `worker_index`. They are proved equal to `Topology.PoolLaunches` and
  `Topology.CountLaunches`, the two launching branches of `Resolve`.
- **Option handlers.** Each handler that `initialize` registers with the
  option parser updates one field of the command. Each is a method of the
  class `Delayed.Command`, which keeps the fields `options`, `workerCount`,
  `monitor` and `workerPools`.

The Ruby primitives the code relies on are stated exactly in module
`RubyText` (`ruby_text.dfy`):

- `String#split` with a one-character separator keeps leading and inner
  empty fields, drops trailing ones, and turns `""` into `[]`.
- `String#to_i` skips leading white space, reads an optional sign, then
  digits with single underscores allowed between them. It gives 0 when no
  digits follow and never raises.
- `nil.to_i` is 0.
- `Integer#to_s` is proved to be read back by `to_i`. So the indexed
  process names are pairwise distinct.

Points where the code decides what a looser description might not:

- The count of a pool is `to_i` of the text after the first `:`. The
  `rescue 1` on lines 40 and 140 can never fire, so a missing or
  non-numeric count gives **0** workers, not 1. For example, `"3"` is a pool
  whose queue list is `["3"]` and whose count is 0.
- Queue names are not trimmed.
- `--pools=` gives an empty list, which Ruby treats as true. Pool mode is
  still chosen, and it launches nothing.

## Model

| member | source | states |
|---|---|---|
| RubyText.Split | lib/delayed/command.rb:133 | no field of `split(sep)` contains the separator, and the last field is never empty (Ruby drops trailing empty fields) |
| RubyText.JoinSplitAll | lib/delayed/command.rb:133 | joining all separator-delimited fields gives back the text: splitting loses no characters |
| RubyText.SplitJoin | lib/delayed/command.rb:138 | `split` gives back the fields that were joined, less the empty ones at the end, when no field holds the separator; so exactly the fields when the last one is non-empty |
| RubyText.ToI | lib/delayed/command.rb:140 | `to_i` of a text with no digit at all is 0; it is total, so the `rescue 1` never applies |
| RubyText.ToIOfLeadingNumber | lib/delayed/command.rb:140 | `to_i` of blanks, an optional sign, a run of digits and any text that does not continue the number is the signed value of the digits: what follows the number is ignored |
| RubyText.ToIWithoutLeadingNumber | lib/delayed/command.rb:140 | `to_i` is 0 when, after the blanks and an optional sign, no digit comes first (so `x1` and `-x` read as 0) |
| RubyText.NilToI | lib/delayed/command.rb:140 | a missing count field (`nil`) reads as 0 |
| RubyText.IntToString | lib/delayed/command.rb:85 | `n.to_s` is the canonical decimal form: a leading `-` exactly when `n` is negative, then at least one digit and nothing else, the first digit `0` only when `n` is zero, and zero itself prints as exactly `0` |
| RubyText.ToIOfIntToString | lib/delayed/command.rb:85 | `n.to_s.to_i == n` for every integer, negative ones included |
| RubyText.IntToStringInjective | lib/delayed/command.rb:85 | distinct worker indices print as distinct texts |
| RubyText.SplitEmpty | lib/delayed/command.rb:133 | `split` gives no field exactly when the text is empty or nothing but separators |
| Pools.QueueList | lib/delayed/command.rb:135-139 | the queue list is empty (every queue) exactly when the queue part is missing, `*`, or nothing but commas; no queue name holds a comma |
| Pools.ParsePool | lib/delayed/command.rb:134-141 | no queue name holds a comma, and a segment without `:` is all queue list with 0 workers |
| Pools.ParseWorkerPools | lib/delayed/command.rb:132-143 | there is no pool at all exactly when the text is empty or nothing but `/` (so `--pools=` gives the empty list) |
| Pools.PoolCountField | lib/delayed/command.rb:134-140 | a pool's count is `to_i` of the text between the first and second `:`, so it is 0 when that text is empty or not a number; anything after a second `:` is ignored |
| Pools.PoolQueuesField | lib/delayed/command.rb:134-139 | the queue list is empty (all queues) when the text before the first `:` is `*` or empty, and otherwise is that text split on `,` without trimming; with no `:` the count is 0 |
| Pools.ParseWorkerPoolsSegments | lib/delayed/command.rb:133 | the parse has one pool per `/`-separated segment, in input order, each parsed on its own, after the empty segments at the end are dropped |
| Pools.ParseWorkerPoolsTrailingSlash | lib/delayed/command.rb:133 | a trailing `/` adds no pool: `a:1/` parses like `a:1` |
| Pools.ParseRenderPool | lib/delayed/command.rb:134-141 | parsing the printed form `queues:count` of any expressible pool gives that pool back |
| Pools.ParseRenderPools | lib/delayed/command.rb:132-143 | parsing the printed form of any list of expressible pools gives the list back: the parser loses and invents nothing |
| Pools.BareNumberIsQueue | lib/delayed/command.rb:134-140 | the pool text `3` is the queue `3` with count 0, not one worker on all queues |
| Pools.SpacedCountExample | lib/delayed/command.rb:134-140 | the pool text `a: 3x` is queue `a` with 3 workers: the count skips blanks and ignores what follows its digits, while queue names are kept as written |
| Pools.TwoPoolExample | lib/delayed/command.rb:132-143 | `a,b:2/*:1` parses to pools (["a","b"], 2) and ([], 1) |
| Topology.Resolve | lib/delayed/command.rb:80-103 | only the conflict raises, never with pools, and with the conflict message; every launch gets the command's options, with only the queue list replaced, and outside pool mode exactly the command's options |
| Topology.PoolLaunches | lib/delayed/command.rb:80-89 | pool mode makes one launch per worker: as many as the sum of the positive pool counts (what each launch holds is stated by `Topology.PoolLaunchesShape`) |
| Topology.CountLaunches | lib/delayed/command.rb:98-102 | `worker_count.times` makes `count` launches (none for 0 or less), each with exactly the command's options |
| Topology.PoolOf | lib/delayed/command.rb:82-88 | every worker index below the total belongs to a pool with a positive count whose running-index range holds it |
| Topology.PoolLaunchesShape | lib/delayed/command.rb:80-89 | pool mode makes exactly as many launches as the sum of the positive pool counts; launch i is named `delayed_job.i` and gets the base options with `queues` replaced by the queue list of the pool that owns index i |
| Topology.PoolOfUnique | lib/delayed/command.rb:82-88 | the pools' index ranges do not overlap, so each index has exactly one owning pool |
| Topology.PoolOfMonotone | lib/delayed/command.rb:82-88 | later launches never belong to earlier pools: workers come in pool order |
| Topology.PoolGetsItsWorkers | lib/delayed/command.rb:82-88 | pool j gets the launches from its starting index up to the starting index plus its count, each with that pool's queue list |
| Topology.PoolNamesDistinct | lib/delayed/command.rb:85 | no two pool-mode launches share a process name |
| Topology.PoolModeIgnoresCountAndIdentifier | lib/delayed/command.rb:80-91 | with pools set there is never an error, and the worker count and identifier change neither the number of launches nor their names |
| Topology.ConflictExactly | lib/delayed/command.rb:91-92 | without pools, ArgumentError arises exactly when the worker count is above 1 and an identifier is set; then there is no launch |
| Topology.IdentifiedWorker | lib/delayed/command.rb:94-96 | without pools, one worker with identifier `id` is a single launch named `delayed_job.id` with the base options |
| Topology.CountedWorkers | lib/delayed/command.rb:98-102 | otherwise there are `count` launches with the base options: plain `delayed_job` for 1, `delayed_job.0`... for more, none for 0 or less, even with an identifier |
| Topology.CountNamesDistinct | lib/delayed/command.rb:99-100 | the counted workers' names are pairwise distinct |
| Delayed.DefaultOptions | lib/delayed/command.rb:15-18 | the initial options hold only `quiet: true` and the pid directory `<root>/tmp/pids` |
| Delayed.Command.constructor | lib/delayed/command.rb:15-21 | a new command has the default options, worker count 1, no monitor and no pool list |
| Delayed.Command.SetMinPriority | lib/delayed/command.rb:33-35 | stores the text as `min_priority`; nothing else changes |
| Delayed.Command.SetMaxPriority | lib/delayed/command.rb:36-38 | stores the text as `max_priority`; nothing else changes |
| Delayed.Command.SetNumberOfWorkers | lib/delayed/command.rb:39-41 | the worker count becomes `to_i` of the text; nothing else changes |
| Delayed.Command.SetPidDir | lib/delayed/command.rb:42-44 | stores the pid directory; nothing else changes |
| Delayed.Command.SetIdentifier | lib/delayed/command.rb:45-47 | stores the identifier text; nothing else changes |
| Delayed.Command.SetMonitor | lib/delayed/command.rb:48-50 | turns the monitor flag on; nothing else changes |
| Delayed.Command.SetSleepDelay | lib/delayed/command.rb:51-53 | stores `to_i` of the text as `sleep_delay`; nothing else changes |
| Delayed.Command.SetReadAhead | lib/delayed/command.rb:54-56 | stores the text as `read_ahead`; nothing else changes |
| Delayed.Command.SetPrefix | lib/delayed/command.rb:57-59 | stores the process-name prefix; nothing else changes |
| Delayed.Command.SetQueues | lib/delayed/command.rb:60-62 | `queues` becomes the text split on `,`, replacing any earlier `--queue`/`--queues` value |
| Delayed.Command.SetQueue | lib/delayed/command.rb:63-65 | the same effect as `--queues` |
| Delayed.Command.SetPools | lib/delayed/command.rb:66-68 | the pool list becomes the parse of the text, replacing any earlier one; an empty text still sets a (present, empty) list |
| Delayed.Command.SetExitOnComplete | lib/delayed/command.rb:69-71 | sets `exit_on_complete`; nothing else changes |
| Delayed.Command.Daemonize | lib/delayed/command.rb:76-104 | the launches made, or the error raised, are exactly those of `Resolve` applied to the command's options, worker count and pool list |
| Delayed.LaunchPools | lib/delayed/command.rb:80-89 | the pool loops append exactly the pool-mode launch list, because the loops keep `worker_index` equal to the worker total of the pools already walked |
| Delayed.LaunchWorkers | lib/delayed/command.rb:98-102 | the `worker_count.times` loop appends exactly the counted launch list |
| Delayed.AsWrittenLosesPoolQueues | lib/delayed/command.rb:106-120 | as written, a worker of the pool `a:1` is started with no queue filter, although its launch carries the queue list ["a"] |
| Delayed.StartedWorkersServeTheirPool | lib/delayed/command.rb:83-86 | when `run_process` passes its options on, every pool-mode worker runs with its pool's queue list, every other option of the command, and the command's pid directory |

## Findings

| source | as written | input that shows it | evidently intended | confidence | as-written member | corrected member |
|---|---|---|---|---|---|---|
| lib/delayed/command.rb:110 | the block given to `Daemons.run_proc` calls `run process_name` without `options`, so `run`'s `options` parameter keeps its default `{}` and `Delayed::Worker.new({})` never sees the pool's queues or any other option | `--pools=a:1`: the launch carries `queues: ["a"]`, but the worker starts with no queue filter | `run process_name, options`, so each worker serves its pool's queues with the command's other options | medium (not executed) | `Delayed.StartAsWritten` (shown by `Delayed.AsWrittenLosesPoolQueues`) | `Delayed.Start` (proved by `Delayed.StartedWorkersServeTheirPool`) |

## Left out

- Process creation. The model does not fork, daemonize or start monitor
  processes (`run_process`, `Daemons.run_proc`, `Worker.before_fork`;
  lines 106-112). Each call is recorded as a `Launch(name, options)`. The
  monitor flag is stored but has no effect in the model.
- Setting the process title from `--prefix` (line 109). This is environment glue.
- The worker runtime `run` (lines 114-127): `Dir.chdir`, `Worker.after_fork`,
  logger setup, `Worker.new`/`start`, and on failure a log message, a
  message on standard error and `exit 1`. These belong to an external
  runtime. Only the options that `run` passes to `Worker.new` are modelled
  (`Delayed.WorkerStart`).
- Creating the pid directory (lines 77-78). This is filesystem I/O. It
  happens before the conflict check, so the model claims only that the
  conflict error launches nothing, not that nothing happened before it.
- Option-parser syntax and its remaining arguments (`@args`, passed on as
  the subcommand). Also left out: `-h`, which prints usage and exits 1, and
  `-e`, whose only effect is a deprecation message on standard error. These
  are a foreign library and I/O. The order in which handlers are called is
  the order of the flags, so a later `--queue`, `--queues`, `--pools` or
  `-n` overwrites an earlier one.
- `Rails.root`, which becomes the constructor's `railsRoot` parameter.
- The `require 'daemons'` guard (lines 1-7). This is environment glue.
- RubyText.ToI: does not model the `0d` radix prefix that Ruby's base-10
  `to_i` also accepts after the sign. Such a count is rare in a pools string.
- RubyText.Split: covers only one-character separators other than a space.
  These are the only separators the code uses (`,`, `:` and `/`).
