# Benchmark executor

A Dafny model of the benchmark executor of the integrated interface
(`integrated_interface/resources/modules/benchmark_executor.js`). The executor
builds a queue of benchmark jobs from the configured benchmarks. It then runs
the jobs one after another as child processes and records what happens to each
of them: its state, its error, its output, its pid and its validator outcome.
It tells listeners about each step through events (`initialize`, `setup`,
`spawned`, `error`, `result`, `canceled`, `done`).

The model has four files:

- `wrappers.dfy`: `Option` and `Outcome` (a value, or an exception that escapes).
- `decimal.dfy` (module `Decimal`): the decimal text JavaScript gives an integer
  below 10^21 in magnitude when it is concatenated to a string. It proves that
  reading the text back gives the number, so the text identifies the number.
- `queue.dfy` (module `Benchmark`): the configured entries, the job
  descriptors and their derived fields (result file, display name, command
  line), and the queue `_initialize` builds. The queue is described as a
  layout of runs (entry, thread count, repeat) numbered by position. Lemmas
  give its length, its order, the fields of every job, and its total expected
  runtime. The class `BenchmarkQueue` holds the jobs and the cursor
  (`_queue_id`).
- `executor.dfy` (module `Executor`):
  - `ExecState` is the executor's state as a value: the jobs, the cursor, the
    `canceled` flag, the events emitted since the run began, and which
    listeners are registered.
  - Each callback has a step function on `ExecState` (`ErrorStep`,
    `TerminateStep`, `RunEachStep`, `CloseStep`, `StdoutStep`, `StderrStep`,
    `ValidatorStep`, `CancelStep`, `RunStep`).
  - Lemmas prove that every step keeps the run's invariant `Valid`:
    - jobs are set up and reported one at a time, in queue order;
    - `done` comes once, after every job was reported;
    - a reported job is no longer queued;
    - a failed job carries its error;
    - a job not yet set up is untouched;
    - registered listeners belong to the current job.
  - The class `BenchmarkExecutor` updates its fields in place, as the
    JavaScript does. The listener methods (`OnClose`, `OnStdout`, `OnStderr`,
    `OnStreamError`, `OnSpawnError`, `OnValidatorResult`), `Cancel` and `Run`
    ensure that the new state is their step function applied to the old state,
    and that the state stays `Valid`. `ErrorHandler`, `OnProcessTerminated` and
    `RunEach` are called from inside those methods. They ensure only the step
    equation, and the step lemmas carry the invariant. `ResultFiles`,
    `Initialize`, `AddEntry` and `AddRepeats` are specified against the jobs
    and against `Build`.

The outside world appears as parameters:
- the parsed command (`parse`, standing for `shell-quote`'s `parse`);
- the host's thread count;
- the outcome of each `spawn` (a pid, or the text of what it threw);
- exit codes (`None` is the `null` code of a process ended by a signal);
- output chunks;
- stream and spawn errors;
- the validator's outcome;
- the error `process.kill` throws, if any.

Each callback of a child process, of its streams or of the validator is a
method. `child` and `validation` record which of those listeners are
registered, and for which job.

Points where the code may surprise a reader of its header comment
(`benchmark_executor.js:1-33`); the model follows the code:

- The repeat suffix of result files and display names is `"." + i` with the
  0-based index `i`, while the job's `repeat` field is `i + 1`.
- Three tokens are appended to the parsed command: the result file, `-tc`
  and the thread count. When the parsed command is empty, the result file
  becomes the command.
- `error_handler` overwrites any earlier state and error, including
  `CANCELED`. `cancel` likewise overwrites a `SUCCESS` or `FAILURE` state when
  the current job has already ended.
- `_runEach` checks for the end of the queue before the `canceled` flag. So
  `done` is still emitted when the job canceled was the last one.
- A `cancel` whose kill throws (always, for a job without a pid) leaves the
  job `FAILURE`, with the kill's error, and emits `error` before `canceled`.
- `cancel` before the first job of a run is set up throws a `TypeError`, since
  there is no current job. Nothing changes in that case.

## Model

| member | source | states |
|---|---|---|
| Benchmark.DescriptorFields | integrated_interface/resources/modules/benchmark_executor.js:212-235 | a job's `repeat` is its 0-based index plus one; its result file is `./results/<id>.<single_core or multi_core><suffix>.result.txt` and its name `<id><suffix> -tc <thread>`, the suffix being empty for one repeat and `"." + index` otherwise; its command and arguments are the parsed command followed by the result file, `-tc` and the thread count, so `-tc` and the thread count always end the arguments |
| Benchmark.Build | integrated_interface/resources/modules/benchmark_executor.js:201-235 | every job of the built queue has its position as its `queue_id`, so the ids are exactly 0 to N-1 |
| Benchmark.LayoutLength | integrated_interface/resources/modules/benchmark_executor.js:202-216 | the queue holds, for each executed entry, one job per thread count and repeat: the length is the sum of (1 or 2 thread counts) times (`repeats`, or 1 when it is 0) over the executed entries |
| Benchmark.SlotPosition | integrated_interface/resources/modules/benchmark_executor.js:205-237 | the run for repeat `i` of thread count `t` of executed entry `e` sits after all jobs of the entries before `e`, at offset `t * repeats + i`: jobs are ordered by entry, then thread count (1 first), then repeat |
| Benchmark.JobPosition | integrated_interface/resources/modules/benchmark_executor.js:205-237 | the job at that position is the descriptor built for that entry, thread count and repeat, with that position as its id |
| Benchmark.ResultFilesDistinct | integrated_interface/resources/modules/benchmark_executor.js:202-218 | two different runs (thread count, repeat) of one entry never share a result file |
| Benchmark.BuildExpectedTotal | integrated_interface/resources/modules/benchmark_executor.js:103-107 | the sum of the expected runtimes of the built queue is, over the executed entries, the entry's expected runtime times its number of jobs |
| Benchmark.ScaledProduct | integrated_interface/resources/modules/benchmark_executor.js:103-107 | adding a runtime up n times is multiplying it by n |
| Benchmark.NextThread | integrated_interface/resources/modules/benchmark_executor.js:212-237 | the jobs for one more thread count are appended after those of the thread counts before it, numbered on from them |
| Benchmark.QueueExpectedTotal | integrated_interface/resources/modules/benchmark_executor.js:103-107 | `total_expected_runtime` of a queue holding the built jobs is, over the executed entries, the entry's expected runtime times its number of jobs |
| Benchmark.BenchmarkQueue.AddProcess | integrated_interface/resources/modules/benchmark_executor.js:76-78 | `add_process` appends exactly one job, fresh (queued, no pid, empty output, no error or validator outcome) with the given descriptor, and keeps the jobs before it |
| Benchmark.BenchmarkQueue.CurrentProcess | integrated_interface/resources/modules/benchmark_executor.js:96-101 | with an id the cursor moves to it, without one it stays; the job under the cursor is returned, or none when the cursor is outside the queue |
| Decimal.NatRoundTrip | integrated_interface/resources/modules/benchmark_executor.js:217 | reading back the decimal text of a repeat index gives the index |
| Decimal.IntRoundTrip | integrated_interface/resources/modules/benchmark_executor.js:219 | reading back the decimal text of any integer (a thread count, an exit code) gives that integer |
| Executor.ExitMessageInjective | integrated_interface/resources/modules/benchmark_executor.js:314-316 | two exit codes, `null` included, never give the same "non-zero exit status" message |
| Executor.Terminated | integrated_interface/resources/modules/benchmark_executor.js:310-318 | a queued job succeeds exactly on exit code 0 and otherwise fails with "non-zero exit status: " and the code; a job already failed or canceled keeps its state and error |
| Executor.TerminateStepJob | integrated_interface/resources/modules/benchmark_executor.js:303-329 | `onProcessTerminated` gives the current job its final state, emits an error exactly when a queued job fails on its exit code, and registers the validator's listener for the job |
| Executor.CanceledJob | integrated_interface/resources/modules/benchmark_executor.js:399-409 | a canceled job ends `CANCELED` exactly when the kill did not throw and `FAILURE` with the kill's error exactly when it did |
| Executor.CancelStepJob | integrated_interface/resources/modules/benchmark_executor.js:396-413 | `cancel` sets the flag, leaves the current job canceled or failed as above, and emits `error` (when the kill threw) immediately before `canceled`, which always comes last |
| Executor.ErrorStepJob | integrated_interface/resources/modules/benchmark_executor.js:293-301 | `error_handler` fails the current job with exactly the given error whatever its state and error were, touches no other job and emits one `error` event for it |
| Executor.RunEachStepOutcomes | integrated_interface/resources/modules/benchmark_executor.js:338-373 | past the end of the queue only `done` is emitted, even after a cancel; after a cancel nothing happens; otherwise job `i` becomes current and `setup` is followed by `spawned` (pid recorded) or, when spawning throws, by the `error` that fails the job, which then waits for the validator |
| Executor.ErrorStepCoherent | integrated_interface/resources/modules/benchmark_executor.js:293-301 | the error handler on a job already set up keeps the run's invariant and the record of set-up and reported jobs |
| Executor.TerminateStepCoherent | integrated_interface/resources/modules/benchmark_executor.js:303-329 | termination of the job in flight keeps the invariant, leaves the job no longer queued and hands it to the validator |
| Executor.CloseStepValid | integrated_interface/resources/modules/benchmark_executor.js:377 | a child's `close` keeps the invariant: the child's listeners give way to the validator's for the same job |
| Executor.OutputStepValid | integrated_interface/resources/modules/benchmark_executor.js:378-383 | output chunks change only the output of the job whose child produced them, and keep the invariant |
| Executor.ChildErrorValid | integrated_interface/resources/modules/benchmark_executor.js:384-390 | stream and spawn errors of the child in flight keep the invariant and the record of the run |
| Executor.SetUpValid | integrated_interface/resources/modules/benchmark_executor.js:354-356 | setting up job `i` after jobs 0 to i-1 were reported makes `i` current and extends the set-up jobs by exactly `i` |
| Executor.SpawnedValid | integrated_interface/resources/modules/benchmark_executor.js:372-390 | a spawned job records its pid and gets its child's listeners, keeping the invariant |
| Executor.SpawnThrewValid | integrated_interface/resources/modules/benchmark_executor.js:365-370 | a job whose spawn throws fails and waits for the validator, keeping the invariant |
| Executor.RunEachStepValid | integrated_interface/resources/modules/benchmark_executor.js:338-391 | `_runEach(i)` after jobs 0 to i-1 were reported keeps the invariant; it sets up job `i` exactly when the queue has it and the run was not canceled, emits `done` exactly when the queue is exhausted, and leaves a listener waiting exactly when it set up a job, so a run only stops at the end or after a cancel |
| Executor.ValidatorStepValid | integrated_interface/resources/modules/benchmark_executor.js:320-328 | the validator's result stores its outcome in exactly the job it validated, reports that job and runs the next, keeping the invariant: unless canceled, the next job is set up exactly when there is one, and `done` is emitted exactly when the validated job was the last; after a cancel no further job is set up; without a registered listener nothing changes |
| Executor.MarkCanceledValid | integrated_interface/resources/modules/benchmark_executor.js:400-401 | marking the current job canceled and setting the flag keeps the invariant |
| Executor.CancelStepValid | integrated_interface/resources/modules/benchmark_executor.js:396-413 | `cancel` with a current job keeps the invariant and the record of the run, and sets the flag |
| Executor.CurrentOnceSetUp | integrated_interface/resources/modules/benchmark_executor.js:396-398 | in a valid state there is a current job exactly when a job of the run has been set up |
| Executor.RunStepValid | integrated_interface/resources/modules/benchmark_executor.js:264-274 | `run` on a queue numbered by position starts valid: it sets up job 0 when there is one, and no job has been reported yet |
| Executor.RunStepEvents | integrated_interface/resources/modules/benchmark_executor.js:264-274 | a run's events begin with `initialize`; an empty queue then emits only `done`, otherwise `setup` of job 0 follows |
| Executor.BenchmarkExecutor.ResultFiles | integrated_interface/resources/modules/benchmark_executor.js:62-69 | `result_files` lists the result file of every job, in queue order |
| Executor.BenchmarkExecutor.ErrorHandler | integrated_interface/resources/modules/benchmark_executor.js:293-301 | the new state is `ErrorStep` of the old |
| Executor.BenchmarkExecutor.OnProcessTerminated | integrated_interface/resources/modules/benchmark_executor.js:303-330 | the new state is `TerminateStep` of the old |
| Executor.BenchmarkExecutor.RunEach | integrated_interface/resources/modules/benchmark_executor.js:338-391 | the new state is `RunEachStep` of the old, for any `i` and spawn outcome |
| Executor.BenchmarkExecutor.OnClose | integrated_interface/resources/modules/benchmark_executor.js:377 | the new state is `CloseStep` of the old, and stays valid |
| Executor.BenchmarkExecutor.OnStdout | integrated_interface/resources/modules/benchmark_executor.js:378-380 | the chunk is appended to the stdout of the job that spawned the child; the state stays valid |
| Executor.BenchmarkExecutor.OnStderr | integrated_interface/resources/modules/benchmark_executor.js:381-383 | the chunk is appended to the stderr of the job that spawned the child; the state stays valid |
| Executor.BenchmarkExecutor.OnStreamError | integrated_interface/resources/modules/benchmark_executor.js:384-385 | a stream error goes to the error handler as it is; the state stays valid |
| Executor.BenchmarkExecutor.OnSpawnError | integrated_interface/resources/modules/benchmark_executor.js:386-390 | a spawn error fails the job with "Starting program failed: " and the message; the state stays valid |
| Executor.BenchmarkExecutor.OnValidatorResult | integrated_interface/resources/modules/benchmark_executor.js:320-328 | the new state is `ValidatorStep` of the old, and stays valid |
| Executor.BenchmarkExecutor.Cancel | integrated_interface/resources/modules/benchmark_executor.js:396-413 | `cancel` throws exactly when no job of the run has been set up, and then changes nothing; otherwise it returns true and the new state is `CancelStep` of the old; the state stays valid |
| Executor.BenchmarkExecutor.Initialize | integrated_interface/resources/modules/benchmark_executor.js:178-239 | `_initialize` clears the flag and fills a new queue, with its cursor unset, with exactly the jobs `Build` describes |
| Executor.BenchmarkExecutor.AddEntry | integrated_interface/resources/modules/benchmark_executor.js:212-237 | the loop over thread counts appends the jobs of one executed entry, numbered on from the jobs before it |
| Executor.BenchmarkExecutor.AddRepeats | integrated_interface/resources/modules/benchmark_executor.js:214-236 | the loop over repeats appends one job per iteration of `i < repeats`, numbered on from the given id |
| Executor.BenchmarkExecutor.Run | integrated_interface/resources/modules/benchmark_executor.js:264-274 | `run` builds the queue anew and its new state is `RunStep` of that queue, which is valid |

## Left out

- Processes, streams and the validator are not run: `child_process.spawn`
  (with its working directory and `detached` process group), `process.kill`
  and `ValidatorExecutor.validate` are foreign calls. What they report is a
  parameter of the method that handles it.
- Timing is left out: `process.hrtime`, `to_secs`, `start_time`, the
  `runtime` field and `total_runtime` measure wall-clock time as floating-point
  numbers.
- `clear_results` is left out. It is best-effort file system I/O, run in
  `run` after `_initialize`, so it deletes the result files of the new queue.
- The project and system descriptions are not modelled: `Configure.project_infos`,
  `system_infos`, `strftime` and `started_at` are configuration snapshots. The
  host's thread count and the configured entries, in iteration order, are
  parameters.
- `shell-quote`'s `parse` is a parameter. Its operator objects (for `|`, `>`,
  and so on) are not distinguished from words.
- The `new_benchmark_queue` and `benchmark_queue` accessors are folded into the
  `queue` field. Before the first run the queue is empty, rather than undefined.
- Error objects are modelled by their message text.
- EventEmitter's throw for an `error` event without a listener is not
  modelled: events go to an event log.
- Benchmark.BuildExpectedTotal: sums the expected runtimes as exact reals. JavaScript's
  floating-point rounding is not modelled, so the stated equality is exact
  where the source's sum is only approximately equal.
- Executor.BenchmarkExecutor.Run: requires that no listener of a child or of
  the validator is pending. A `run` while a child is still running would leave
  its listeners acting on the new queue, which is not modelled. The event log
  starts afresh with each run.
- Executor.BenchmarkExecutor.OnClose, OnStdout, OnStderr, OnStreamError and
  OnSpawnError: require the child's listeners to be registered. Events from
  a child after its `close` are not modelled.
- Executor.BenchmarkExecutor.OnValidatorResult: models the `once` listener.
  At most one validator listener is pending, since at most one job is in flight.
- Executor.KillFailure: the error thrown by `process.kill` for a job without a
  pid is a fixed text, the `TypeError` message of current Node.js versions.
  Other versions word it differently. What matters to the model is that the
  call throws and the job fails with the thrown message.
- Executor.BenchmarkExecutor.Cancel: each callback is treated as atomic.
  Event listeners run synchronously inside `emit`, so a listener that calls
  `cancel` or `run` while the executor emits `initialize`, `setup`, `spawned`
  or `error` would see an intermediate state. For example, `cancel` from an
  `initialize` listener finds job 0 current although it was never set up, so it
  does not throw. Such re-entrant calls are not modelled.
- Numbers are doubles in JavaScript: the `queue_id` counter, repeats, thread
  counts and exit codes. The model uses unbounded integers, so it does not
  capture precision loss above 2^53. It also does not capture the exponent
  notation (`1e+21`) JavaScript uses for the text of numbers from 10^21 on.
