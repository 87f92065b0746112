/**
 * The benchmark executor of benchmark_executor.js: it builds the queue, runs
 * the jobs one after another as child processes, records what happens to each
 * of them and tells its listeners through events.
 *
 * The child process, its output streams and the validator are collaborators
 * whose callbacks arrive from outside: each callback is a method here, called
 * with what the collaborator reports (the exit code, an output chunk, the
 * outcome of spawning the next job).
 */
module Executor {
  import opened Wrappers
  import opened Decimal
  import opened Benchmark

  /** The events the executor emits; a job is named by its position in the queue. */
  datatype Event =
    | InitializeEvent
    | SetupEvent(job: nat)
    | SpawnedEvent(job: nat)
    | ResultEvent(job: nat)
    | ErrorEvent(error: ErrorInfo, job: nat)
    | CanceledEvent(job: nat)
    | DoneEvent

  /** What `spawn` does: it starts a child (whose pid may be undefined), or throws. */
  datatype SpawnOutcome = Started(pid: Option<int>) | SpawnThrew(reason: string)

  // ---------------------------------------------------------------------
  // What a job becomes when its process ends or is canceled
  // ---------------------------------------------------------------------

  /** The error text for an exit code; `None` is the `null` code of a process ended by a signal. */
  function ExitMessage(code: Option<int>): string {
    "non-zero exit status: " + (if code.None? then "null" else IntToString(code.value))
  }

  /** Two exit codes never share an error text, so the text identifies the code. */
  lemma ExitMessageInjective(a: Option<int>, b: Option<int>)
    requires ExitMessage(a) == ExitMessage(b)
    ensures a == b
  {
    var p := "non-zero exit status: ";
    var ta := if a.None? then "null" else IntToString(a.value);
    var tb := if b.None? then "null" else IntToString(b.value);
    assert ExitMessage(a)[|p|..] == ta;
    assert ExitMessage(b)[|p|..] == tb;
    assert ta[0] == 'n' <==> a.None?;
    assert tb[0] == 'n' <==> b.None?;
    if a.Some? && b.Some? {
      IntToStringInjective(a.value, b.value);
    }
  }

  /**
   * `onProcessTerminated` on the job: a job still queued succeeds on exit
   * code 0 and fails with the exit-status error otherwise; a job already
   * failed or canceled keeps its state and error.
   */
  function Terminated(job: Job, code: Option<int>): (r: Job)
    ensures r.state != Queued
    ensures job.state != Queued ==> r == job
    ensures job.state == Queued ==> (r.state == Success <==> code == Some(0))
    ensures job.state == Queued && r.state != Success
            ==> r.state == Failure && r.error == Some(ErrorInfo(ExitMessage(code)))
    ensures r.desc == job.desc && r.pid == job.pid && r.stdout == job.stdout && r.stderr == job.stderr
            && r.validator == job.validator
  {
    if job.state != Queued then job
    else if code == Some(0) then job.(state := Success)
    else job.(state := Failure, error := Some(ErrorInfo(ExitMessage(code))))
  }

  /** The text of the error `process.kill` throws for the group id of a job without a pid. */
  const InvalidPidMessage: string := "The \"pid\" argument must be of type number. Received type string ('-undefined')"

  /** What `process.kill` throws, if anything: it always throws for a job without a pid. */
  function KillFailure(pid: Option<int>, killFailure: Option<string>): (r: Option<string>)
    ensures pid.None? ==> r == Some(InvalidPidMessage)
    ensures pid.Some? ==> r == killFailure
  {
    if pid.None? then Some(InvalidPidMessage) else killFailure
  }

  /**
   * `cancel` on the current job: it is marked canceled, but a kill that throws
   * hands the error to the error handler, which marks it failed instead.
   */
  function CanceledJob(job: Job, failure: Option<string>): (r: Job)
    ensures r.state == Canceled <==> failure.None?
    ensures r.state == Failure <==> failure.Some?
    ensures failure.Some? ==> r.error == Some(ErrorInfo(failure.value))
    ensures failure.None? ==> r.error == job.error
    ensures r.desc == job.desc && r.pid == job.pid && r.stdout == job.stdout && r.stderr == job.stderr
            && r.validator == job.validator
  {
    if failure.Some? then job.(state := Failure, error := Some(ErrorInfo(failure.value)))
    else job.(state := Canceled)
  }

  // ---------------------------------------------------------------------
  // The events of one run
  // ---------------------------------------------------------------------

  /** The jobs announced by `setup`, in order. */
  function SetupIds(log: seq<Event>): seq<nat> {
    if log == [] then []
    else SetupIds(log[..|log| - 1]) + (if log[|log| - 1].SetupEvent? then [log[|log| - 1].job] else [])
  }

  /** The jobs announced by `result`, in order. */
  function ResultIds(log: seq<Event>): seq<nat> {
    if log == [] then []
    else ResultIds(log[..|log| - 1]) + (if log[|log| - 1].ResultEvent? then [log[|log| - 1].job] else [])
  }

  function DoneCount(log: seq<Event>): nat {
    if log == [] then 0
    else DoneCount(log[..|log| - 1]) + (if log[|log| - 1].DoneEvent? then 1 else 0)
  }

  lemma LogSnoc(log: seq<Event>, e: Event)
    ensures SetupIds(log + [e]) == SetupIds(log) + (if e.SetupEvent? then [e.job] else [])
    ensures ResultIds(log + [e]) == ResultIds(log) + (if e.ResultEvent? then [e.job] else [])
    ensures DoneCount(log + [e]) == DoneCount(log) + (if e.DoneEvent? then 1 else 0)
  {
    assert (log + [e])[..|log|] == log;
  }

  /** The positions 0, 1, 2, ... in order. */
  predicate Counting(ids: seq<nat>) {
    forall k :: 0 <= k < |ids| ==> ids[k] == k
  }

  predicate IdsArePositions(jobs: seq<Job>) {
    forall k :: 0 <= k < |jobs| ==> jobs[k].desc.queueId == k
  }

  /** A failed job carries the error that failed it. */
  predicate FailuresExplained(jobs: seq<Job>) {
    forall k :: 0 <= k < |jobs| ==> jobs[k].state == Failure ==> jobs[k].error.Some?
  }

  /** The jobs before `n` are no longer queued. */
  predicate Finished(jobs: seq<Job>, n: nat) {
    forall k :: 0 <= k < n && k < |jobs| ==> jobs[k].state != Queued
  }

  /** The jobs from `n` on are still as `add_process` created them. */
  predicate Untouched(jobs: seq<Job>, n: nat) {
    forall k :: n <= k < |jobs| ==> jobs[k] == NewJob(jobs[k].desc)
  }


  // ---------------------------------------------------------------------
  // The executor's state and what each callback does to it
  // ---------------------------------------------------------------------

  /**
   * What the executor's callbacks read and change: the queue's jobs and
   * cursor, the cancel flag, the events emitted since the run began, the job
   * whose child process has its listeners registered and the job whose
   * validator `result` listener is registered.
   */
  datatype ExecState = ExecState(jobs: seq<Job>, cursor: int, canceled: bool, events: seq<Event>,
                                 child: Option<nat>, validation: Option<nat>)

  /** `current_process()` names a job. */
  predicate HasCurrentJob(s: ExecState) {
    0 <= s.cursor < |s.jobs|
  }

  /** No listener of a child process or of the validator is waiting. */
  predicate Idle(s: ExecState) {
    s.child.None? && s.validation.None?
  }

  function Setups(s: ExecState): seq<nat> {
    SetupIds(s.events)
  }

  function Results(s: ExecState): seq<nat> {
    ResultIds(s.events)
  }

  /** A job has been set up and not yet reported, and it is the current one. */
  predicate InFlight(s: ExecState) {
    && |Setups(s)| == |Results(s)| + 1
    && s.cursor == |Results(s)|
    && s.cursor < |s.jobs|
  }

  /** What the jobs look like once the first `setup` jobs were set up and the first `reported` reported. */
  predicate JobsAgree(jobs: seq<Job>, setup: nat, reported: nat) {
    && IdsArePositions(jobs)
    && FailuresExplained(jobs)
    && Finished(jobs, reported)
    && Untouched(jobs, setup)
  }

  /**
   * The jobs are set up and reported one after the other in queue order,
   * each report after its set up, and `done` comes at most once, after every
   * one of the `n` jobs was reported.
   */
  predicate LogAgrees(events: seq<Event>, n: nat) {
    && Counting(SetupIds(events))
    && Counting(ResultIds(events))
    && |ResultIds(events)| <= |SetupIds(events)| <= |ResultIds(events)| + 1
    && |SetupIds(events)| <= n
    && DoneCount(events) <= 1
    && (DoneCount(events) == 1 ==> |ResultIds(events)| == n)
  }

  /** The listeners registered belong to the current job, and the validator only sees a job that has ended. */
  predicate ListenersAgree(s: ExecState) {
    && (s.child.Some? ==> s.validation.None? && InFlight(s) && s.child.value == s.cursor)
    && (s.validation.Some? ==> InFlight(s) && s.validation.value == s.cursor
                               && s.jobs[s.cursor].state != Queued)
  }

  /** The executor's invariant while a callback runs. */
  predicate Coherent(s: ExecState) {
    && JobsAgree(s.jobs, |Setups(s)|, |Results(s)|)
    && LogAgrees(s.events, |s.jobs|)
    && ListenersAgree(s)
  }

  /** Between callbacks the current job is the last one set up, and there is none before the first. */
  predicate Settled(s: ExecState) {
    if |Setups(s)| == 0 then !HasCurrentJob(s) else s.cursor == |Setups(s)| - 1
  }

  predicate Valid(s: ExecState) {
    Coherent(s) && Settled(s)
  }

  /** `self.emit(e)` */
  function EmitStep(s: ExecState, e: Event): ExecState {
    s.(events := s.events + [e])
  }

  /** `error_handler`: the current job fails with `err`, whatever its state was, and `error` is emitted. */
  function ErrorStep(s: ExecState, err: ErrorInfo): ExecState
    requires HasCurrentJob(s)
  {
    var c := s.cursor;
    EmitStep(s.(jobs := s.jobs[c := s.jobs[c].(state := Failure, error := Some(err))]), ErrorEvent(err, c))
  }

  /**
   * `onProcessTerminated`: a current job still queued is marked successful
   * and, on an exit code other than 0, handed to the error handler; then the
   * validator's listener is registered for it.
   */
  function TerminateStep(s: ExecState, code: Option<int>): ExecState
    requires HasCurrentJob(s)
  {
    var c := s.cursor;
    var job := s.jobs[c];
    var ended :=
      if job.state != Queued then s
      else
        var succeeded := s.(jobs := s.jobs[c := job.(state := Success)]);
        if code == Some(0) then succeeded else ErrorStep(succeeded, ErrorInfo(ExitMessage(code)));
    ended.(validation := Some(c))
  }

  /**
   * `_runEach(i)`: past the end of the queue `done` is emitted; after a
   * cancel nothing happens; otherwise job `i` becomes the current one and is
   * set up, then either spawned, with the child's listeners registered, or,
   * when spawning throws, failed and terminated with code -1.
   */
  function RunEachStep(s: ExecState, i: nat, spawn: SpawnOutcome): ExecState {
    if i >= |s.jobs| then EmitStep(s, DoneEvent)
    else if s.canceled then s
    else
      var setUp := EmitStep(s.(cursor := i), SetupEvent(i));
      match spawn
      case Started(pid) =>
        EmitStep(setUp.(jobs := setUp.jobs[i := setUp.jobs[i].(pid := pid)]), SpawnedEvent(i)).(child := Some(i))
      case SpawnThrew(reason) =>
        TerminateStep(ErrorStep(setUp, ErrorInfo(reason)), Some(-1))
  }

  /** The child's `close` listener: it is the last callback of that child. */
  function CloseStep(s: ExecState, code: Option<int>): ExecState
    requires HasCurrentJob(s)
  {
    TerminateStep(s.(child := None), code)
  }

  /** The child's stdout `data` listener appends the chunk to the job that spawned the child. */
  function StdoutStep(s: ExecState, chunk: string): ExecState
    requires s.child.Some? && s.child.value < |s.jobs|
  {
    var c := s.child.value;
    s.(jobs := s.jobs[c := s.jobs[c].(stdout := s.jobs[c].stdout + chunk)])
  }

  /** The child's stderr `data` listener. */
  function StderrStep(s: ExecState, chunk: string): ExecState
    requires s.child.Some? && s.child.value < |s.jobs|
  {
    var c := s.child.value;
    s.(jobs := s.jobs[c := s.jobs[c].(stderr := s.jobs[c].stderr + chunk)])
  }

  /**
   * The validator's `result` listener, registered once: the outcome is stored
   * on the job, `result` is emitted and the job after it is run. Without a
   * registered listener nothing happens.
   */
  function ValidatorStep(s: ExecState, outcome: ValidatorOutcome, next: SpawnOutcome): ExecState
    requires s.validation.Some? ==> s.validation.value < |s.jobs|
  {
    if s.validation.None? then s
    else
      var p := s.validation.value;
      var stored := s.(validation := None, jobs := s.jobs[p := s.jobs[p].(validator := Some(outcome))]);
      RunEachStep(EmitStep(stored, ResultEvent(p)), s.jobs[p].desc.queueId + 1, next)
  }

  /**
   * `cancel` with a current job: it is marked canceled and the flag set; a
   * kill that throws hands its error to the error handler; `canceled` is
   * emitted last.
   */
  function CancelStep(s: ExecState, killFailure: Option<string>): ExecState
    requires HasCurrentJob(s)
  {
    var c := s.cursor;
    var marked := s.(jobs := s.jobs[c := s.jobs[c].(state := Canceled)], canceled := true);
    var failure := KillFailure(marked.jobs[c].pid, killFailure);
    var handled := if failure.Some? then ErrorStep(marked, ErrorInfo(failure.value)) else marked;
    EmitStep(handled, CanceledEvent(c))
  }

  /** After `_initialize`, `current_process(0)` and the `initialize` event of `run`. */
  function Initialized(jobs: seq<Job>): ExecState {
    ExecState(jobs, 0, false, [InitializeEvent], None, None)
  }

  /** `run` on the jobs `_initialize` built, the first of them spawned as `first` says. */
  function RunStep(jobs: seq<Job>, first: SpawnOutcome): ExecState {
    RunEachStep(Initialized(jobs), 0, first)
  }

  // ---------------------------------------------------------------------
  // What each step does to a job, and the invariant each step keeps
  // ---------------------------------------------------------------------

  /** `onProcessTerminated` gives the current job its final state, and reports an error exactly when that is a failure on the exit code. */
  lemma TerminateStepJob(s: ExecState, code: Option<int>)
    requires HasCurrentJob(s)
    ensures var r := TerminateStep(s, code);
            && r.jobs == s.jobs[s.cursor := Terminated(s.jobs[s.cursor], code)]
            && r.events == s.events
                           + (if s.jobs[s.cursor].state == Queued && code != Some(0)
                              then [ErrorEvent(ErrorInfo(ExitMessage(code)), s.cursor)] else [])
            && r.validation == Some(s.cursor) && r.cursor == s.cursor && r.child == s.child
            && r.canceled == s.canceled
  {
  }

  /** `cancel` leaves the current job canceled unless the kill threw, and reports the kill's error before `canceled`. */
  lemma CancelStepJob(s: ExecState, killFailure: Option<string>)
    requires HasCurrentJob(s)
    ensures var r := CancelStep(s, killFailure);
            var c := s.cursor;
            var failure := KillFailure(s.jobs[c].pid, killFailure);
            && r.jobs == s.jobs[c := CanceledJob(s.jobs[c], failure)]
            && r.events == s.events
                           + (if failure.Some? then [ErrorEvent(ErrorInfo(failure.value), c)] else [])
                           + [CanceledEvent(c)]
            && r.canceled && r.cursor == c && r.child == s.child && r.validation == s.validation
  {
  }

  /**
   * `error_handler` fails the current job with exactly the given error,
   * whatever its state and error were, touches no other job and emits one
   * `error` event for it.
   */
  lemma ErrorStepJob(s: ExecState, err: ErrorInfo)
    requires HasCurrentJob(s)
    ensures var r := ErrorStep(s, err);
            var c := s.cursor;
            && |r.jobs| == |s.jobs|
            && r.jobs[c] == s.jobs[c].(state := Failure, error := Some(err))
            && (forall k :: 0 <= k < |s.jobs| && k != c ==> r.jobs[k] == s.jobs[k])
            && r.events == s.events + [ErrorEvent(err, c)]
            && r.cursor == c && r.canceled == s.canceled && r.child == s.child && r.validation == s.validation
  {
  }

  /**
   * The outcomes of `_runEach(i)`: past the end only `done` is emitted, even
   * after a cancel; after a cancel nothing happens; otherwise job `i` becomes
   * current and `setup` comes first, followed by `spawned` or, when spawning
   * throws, by the error that fails the job, which then waits for the validator.
   */
  lemma RunEachStepOutcomes(s: ExecState, i: nat, spawn: SpawnOutcome)
    ensures var r := RunEachStep(s, i, spawn);
            && (i >= |s.jobs| ==> r == s.(events := s.events + [DoneEvent]))
            && (i < |s.jobs| && s.canceled ==> r == s)
            && (i < |s.jobs| && !s.canceled ==>
                  && r.cursor == i && |r.jobs| == |s.jobs| && r.canceled == s.canceled
                  && (forall k :: 0 <= k < |s.jobs| && k != i ==> r.jobs[k] == s.jobs[k])
                  && (spawn.Started? ==>
                        && r.jobs[i] == s.jobs[i].(pid := spawn.pid)
                        && r.events == s.events + [SetupEvent(i), SpawnedEvent(i)]
                        && r.child == Some(i) && r.validation == s.validation)
                  && (spawn.SpawnThrew? ==>
                        && r.jobs[i] == s.jobs[i].(state := Failure, error := Some(ErrorInfo(spawn.reason)))
                        && r.events == s.events + [SetupEvent(i), ErrorEvent(ErrorInfo(spawn.reason), i)]
                        && r.child == s.child && r.validation == Some(i)))
  {
  }

  /** Replacing a job already set up by one with the same descriptor keeps the jobs in agreement. */
  lemma ReplaceJob(jobs: seq<Job>, c: nat, job: Job, setup: nat, reported: nat)
    requires JobsAgree(jobs, setup, reported)
    requires c < |jobs| && c < setup
    requires job.desc == jobs[c].desc
    requires job.state == Failure ==> job.error.Some?
    requires c < reported ==> job.state != Queued
    ensures JobsAgree(jobs[c := job], setup, reported)
  {
  }

  /** An event other than `setup`, `result` and `done` leaves the record of the run as it was. */
  lemma QuietEvent(s: ExecState, e: Event)
    requires !e.SetupEvent? && !e.ResultEvent? && !e.DoneEvent?
    ensures var r := EmitStep(s, e);
            Setups(r) == Setups(s) && Results(r) == Results(s) && DoneCount(r.events) == DoneCount(s.events)
  {
    LogSnoc(s.events, e);
  }

  /** The listeners of a job are registered only while it is the current one. */
  lemma ListenerOnCurrent(s: ExecState)
    requires Coherent(s) && !Idle(s)
    ensures HasCurrentJob(s) && InFlight(s)
    ensures DoneCount(s.events) == 0
  {
  }

  /** A job is current exactly when some job has been set up in this run. */
  lemma CurrentOnceSetUp(s: ExecState)
    requires Valid(s)
    ensures HasCurrentJob(s) <==> |Setups(s)| > 0
  {
  }

  /** The error handler, applied to a job already set up, keeps the invariant and the record of the run. */
  lemma ErrorStepCoherent(s: ExecState, err: ErrorInfo)
    requires Coherent(s) && HasCurrentJob(s) && s.cursor < |Setups(s)|
    ensures var r := ErrorStep(s, err);
            && Coherent(r)
            && Setups(r) == Setups(s) && Results(r) == Results(s) && DoneCount(r.events) == DoneCount(s.events)
            && (Settled(s) ==> Settled(r))
            && (InFlight(s) ==> InFlight(r))
  {
    var c := s.cursor;
    var failed := s.jobs[c].(state := Failure, error := Some(err));
    ReplaceJob(s.jobs, c, failed, |Setups(s)|, |Results(s)|);
    QuietEvent(s.(jobs := s.jobs[c := failed]), ErrorEvent(err, c));
  }

  /** Termination of the job in flight keeps the invariant and hands the job to the validator. */
  lemma TerminateStepCoherent(s: ExecState, code: Option<int>)
    requires Coherent(s) && Idle(s) && InFlight(s)
    ensures var r := TerminateStep(s, code);
            && Coherent(r) && InFlight(r)
            && r.validation == Some(s.cursor) && r.child.None?
            && Setups(r) == Setups(s) && Results(r) == Results(s)
            && r.cursor == s.cursor && |r.jobs| == |s.jobs| && r.canceled == s.canceled
  {
    var c := s.cursor;
    var job := s.jobs[c];
    if job.state == Queued {
      var succeeded := s.(jobs := s.jobs[c := job.(state := Success)]);
      ReplaceJob(s.jobs, c, job.(state := Success), |Setups(s)|, |Results(s)|);
      assert Coherent(succeeded);
      if code != Some(0) {
        ErrorStepCoherent(succeeded, ErrorInfo(ExitMessage(code)));
      }
    }
  }

  /** Closing keeps the invariant: the child's listeners give way to the validator's. */
  lemma CloseStepValid(s: ExecState, code: Option<int>)
    requires Valid(s) && s.child.Some?
    ensures HasCurrentJob(s)
    ensures var r := CloseStep(s, code);
            && Valid(r) && r.child.None? && r.validation == Some(s.cursor)
            && Setups(r) == Setups(s) && Results(r) == Results(s)
  {
    ListenerOnCurrent(s);
    TerminateStepCoherent(s.(child := None), code);
  }

  /** Output only changes the output of the job in flight. */
  lemma OutputStepValid(s: ExecState, chunk: string)
    requires Valid(s) && s.child.Some?
    ensures s.child.value < |s.jobs|
    ensures Valid(StdoutStep(s, chunk)) && Valid(StderrStep(s, chunk))
  {
    ListenerOnCurrent(s);
    var c := s.cursor;
    ReplaceJob(s.jobs, c, s.jobs[c].(stdout := s.jobs[c].stdout + chunk), |Setups(s)|, |Results(s)|);
    ReplaceJob(s.jobs, c, s.jobs[c].(stderr := s.jobs[c].stderr + chunk), |Setups(s)|, |Results(s)|);
  }

  /** A stream or spawn error of the child in flight keeps the invariant. */
  lemma ChildErrorValid(s: ExecState, err: ErrorInfo)
    requires Valid(s) && s.child.Some?
    ensures HasCurrentJob(s)
    ensures var r := ErrorStep(s, err);
            Valid(r) && r.child == s.child && Setups(r) == Setups(s) && Results(r) == Results(s)
  {
    ListenerOnCurrent(s);
    ErrorStepCoherent(s, err);
  }

  /** Setting up job `i` extends the record of set-up jobs by `i` and makes `i` current. */
  lemma SetUpValid(s: ExecState, i: nat)
    requires Coherent(s) && Idle(s)
    requires i == |Setups(s)| == |Results(s)| && i < |s.jobs|
    requires DoneCount(s.events) == 0
    ensures var r := EmitStep(s.(cursor := i), SetupEvent(i));
            && Coherent(r) && InFlight(r) && Settled(r) && Idle(r)
            && Setups(r) == Setups(s) + [i] && Results(r) == Results(s) && DoneCount(r.events) == 0
  {
    LogSnoc(s.events, SetupEvent(i));
  }

  /** A job that was spawned has its pid recorded, its child's listeners registered, and the invariant holds. */
  lemma SpawnedValid(s: ExecState, pid: Option<int>)
    requires Coherent(s) && InFlight(s) && Settled(s) && Idle(s)
    ensures var c := s.cursor;
            var r := EmitStep(s.(jobs := s.jobs[c := s.jobs[c].(pid := pid)]), SpawnedEvent(c)).(child := Some(c));
            && Valid(r) && Setups(r) == Setups(s) && Results(r) == Results(s)
  {
    var c := s.cursor;
    ReplaceJob(s.jobs, c, s.jobs[c].(pid := pid), |Setups(s)|, |Results(s)|);
    QuietEvent(s.(jobs := s.jobs[c := s.jobs[c].(pid := pid)]), SpawnedEvent(c));
  }

  /** A job that could not be spawned has failed and waits for the validator; the invariant holds. */
  lemma SpawnThrewValid(s: ExecState, reason: string)
    requires Coherent(s) && InFlight(s) && Settled(s) && Idle(s)
    ensures var r := TerminateStep(ErrorStep(s, ErrorInfo(reason)), Some(-1));
            && Valid(r) && r.validation == Some(s.cursor)
            && Setups(r) == Setups(s) && Results(r) == Results(s)
  {
    ErrorStepCoherent(s, ErrorInfo(reason));
    TerminateStepCoherent(ErrorStep(s, ErrorInfo(reason)), Some(-1));
  }

  /**
   * `_runEach(i)`, called when the jobs before `i` are all reported, keeps
   * the invariant: it sets up job `i` unless the queue is exhausted (then
   * `done` is emitted, once) or the run was canceled (then nothing happens),
   * and a job it sets up always has a listener waiting, so the run goes on.
   */
  lemma RunEachStepValid(s: ExecState, i: nat, spawn: SpawnOutcome)
    requires Coherent(s) && Idle(s)
    requires i == |Setups(s)| == |Results(s)|
    requires DoneCount(s.events) == 0
    requires if i == 0 then !s.canceled else s.cursor == i - 1
    ensures var r := RunEachStep(s, i, spawn);
            && Valid(r)
            && Setups(r) == Setups(s) + (if i < |s.jobs| && !s.canceled then [i] else [])
            && Results(r) == Results(s)
            && (DoneCount(r.events) == 1 <==> i >= |s.jobs|)
            && (Idle(r) <==> i >= |s.jobs| || s.canceled)
  {
    if i >= |s.jobs| {
      LogSnoc(s.events, DoneEvent);
    } else if !s.canceled {
      SetUpValid(s, i);
      var setUp := EmitStep(s.(cursor := i), SetupEvent(i));
      match spawn
      case Started(pid) =>
        SpawnedValid(setUp, pid);
      case SpawnThrew(reason) =>
        SpawnThrewValid(setUp, reason);
        ErrorStepCoherent(setUp, ErrorInfo(reason));
    }
  }

  /**
   * The validator's result keeps the invariant: it stores the outcome on the
   * job it validated and reports it, then runs the next one, which is set up
   * unless the run was canceled, or emits `done` when the job was the last;
   * after a cancel no job is set up any more.
   */
  lemma ValidatorStepValid(s: ExecState, outcome: ValidatorOutcome, next: SpawnOutcome)
    requires Valid(s)
    ensures s.validation.Some? ==> s.validation.value < |s.jobs|
    ensures var r := ValidatorStep(s, outcome, next);
            && Valid(r)
            && (s.validation.None? ==> r == s)
            && (s.validation.Some? ==> Results(r) == Results(s) + [s.validation.value])
            && (s.canceled ==> Setups(r) == Setups(s))
            && |r.jobs| == |s.jobs|
            && (s.validation.Some? ==>
                  var p := s.validation.value;
                  && r.jobs[p] == s.jobs[p].(validator := Some(outcome))
                  && (!s.canceled && p + 1 < |s.jobs| ==> Setups(r) == Setups(s) + [p + 1])
                  && (DoneCount(r.events) == 1 <==> p + 1 >= |s.jobs|))
  {
    if s.validation.Some? {
      ListenerOnCurrent(s);
      var p := s.validation.value;
      var stored := s.(validation := None, jobs := s.jobs[p := s.jobs[p].(validator := Some(outcome))]);
      ReplaceJob(s.jobs, p, s.jobs[p].(validator := Some(outcome)), |Setups(s)|, |Results(s)|);
      var reported := EmitStep(stored, ResultEvent(p));
      LogSnoc(stored.events, ResultEvent(p));
      assert JobsAgree(reported.jobs, |Setups(reported)|, |Results(reported)|);
      RunEachStepValid(reported, p + 1, next);
      RunEachStepOutcomes(reported, p + 1, next);
    }
  }

  /** Marking the current job canceled keeps the invariant, since a current job has been set up. */
  lemma MarkCanceledValid(s: ExecState)
    requires Valid(s) && HasCurrentJob(s)
    ensures var c := s.cursor;
            var marked := s.(jobs := s.jobs[c := s.jobs[c].(state := Canceled)], canceled := true);
            Valid(marked) && c < |Setups(marked)| && Setups(marked) == Setups(s) && Results(marked) == Results(s)
  {
    var c := s.cursor;
    ReplaceJob(s.jobs, c, s.jobs[c].(state := Canceled), |Setups(s)|, |Results(s)|);
  }

  /** `cancel` with a current job keeps the invariant and the record of the run, and sets the flag. */
  lemma CancelStepValid(s: ExecState, killFailure: Option<string>)
    requires Valid(s) && HasCurrentJob(s)
    ensures var r := CancelStep(s, killFailure);
            && Valid(r) && r.canceled
            && Setups(r) == Setups(s) && Results(r) == Results(s)
  {
    var c := s.cursor;
    var marked := s.(jobs := s.jobs[c := s.jobs[c].(state := Canceled)], canceled := true);
    MarkCanceledValid(s);
    var failure := KillFailure(marked.jobs[c].pid, killFailure);
    var handled := if failure.Some? then ErrorStep(marked, ErrorInfo(failure.value)) else marked;
    if failure.Some? {
      ErrorStepCoherent(marked, ErrorInfo(failure.value));
    }
    QuietEvent(handled, CanceledEvent(c));
  }

  /**
   * `run` on jobs numbered by their positions keeps the invariant: the first
   * job is set up when there is one, and none is reported yet.
   */
  lemma RunStepValid(ds: seq<Descriptor>, first: SpawnOutcome)
    requires forall k :: 0 <= k < |ds| ==> ds[k].queueId == k
    ensures var r := RunStep(NewJobs(ds), first);
            && Valid(r)
            && Setups(r) == (if |ds| > 0 then [0] else [])
            && Results(r) == []
  {
    var s := Initialized(NewJobs(ds));
    assert SetupIds(s.events) == [] && ResultIds(s.events) == [] && DoneCount(s.events) == 0 by {
      LogSnoc([], InitializeEvent);
    }
    assert JobsAgree(s.jobs, 0, 0);
    RunEachStepValid(s, 0, first);
  }

  /** A run begins with `initialize`; an empty queue is done at once, otherwise the first job is set up next. */
  lemma RunStepEvents(jobs: seq<Job>, first: SpawnOutcome)
    ensures var r := RunStep(jobs, first);
            && |r.events| >= 2 && r.events[0] == InitializeEvent
            && (|jobs| == 0 ==> r.events == [InitializeEvent, DoneEvent])
            && (|jobs| > 0 ==> r.events[1] == SetupEvent(0))
  {
    RunEachStepOutcomes(Initialized(jobs), 0, first);
  }

  // ---------------------------------------------------------------------
  // The executor
  // ---------------------------------------------------------------------

  class BenchmarkExecutor {
    /** `self.canceled` */
    var canceled: bool
    /** `self._benchmark_queue` */
    var queue: BenchmarkQueue
    /** The events emitted since the current run began, oldest first. */
    var events: seq<Event>
    /** The job whose child process has its close, output and error listeners registered. */
    var child: Option<nat>
    /** The job whose validator `result` listener is registered. */
    var validation: Option<nat>

    function State(): ExecState
      reads this, queue
    {
      ExecState(queue.jobs, queue.cursor, canceled, events, child, validation)
    }

    constructor ()
      ensures State() == ExecState([], -1, false, [], None, None)
      ensures Valid(State())
    {
      canceled := false;
      queue := new BenchmarkQueue();
      events := [];
      child := None;
      validation := None;
    }

    /** `self.emit` */
    method Emit(e: Event)
      modifies this`events
      ensures State() == EmitStep(old(State()), e)
    {
      events := events + [e];
    }

    /** `result_files`: the result file of every job, in queue order. */
    method ResultFiles() returns (files: seq<string>)
      ensures |files| == |queue.jobs|
      ensures forall k :: 0 <= k < |files| ==> files[k] == queue.jobs[k].desc.resultFile
    {
      files := [];
      var k := 0;
      while k < |queue.jobs|
        invariant 0 <= k <= |queue.jobs|
        invariant |files| == k
        invariant forall j :: 0 <= j < k ==> files[j] == queue.jobs[j].desc.resultFile
      {
        files := files + [queue.jobs[k].desc.resultFile];
        k := k + 1;
      }
    }

    /** `error_handler` */
    method ErrorHandler(err: ErrorInfo)
      requires HasCurrentJob(State())
      modifies queue`jobs, this`events
      ensures State() == ErrorStep(old(State()), err)
    {
      var c := queue.cursor;
      queue.jobs := queue.jobs[c := queue.jobs[c].(state := Failure, error := Some(err))];
      Emit(ErrorEvent(err, c));
    }

    /** `onProcessTerminated` */
    method OnProcessTerminated(code: Option<int>)
      requires HasCurrentJob(State())
      modifies queue`jobs, this`events, this`validation
      ensures State() == TerminateStep(old(State()), code)
    {
      var c := queue.cursor;
      if queue.jobs[c].state == Queued {
        queue.jobs := queue.jobs[c := queue.jobs[c].(state := Success)];
        if code != Some(0) {
          ErrorHandler(ErrorInfo(ExitMessage(code)));
        }
      }
      validation := Some(c);
    }

    /** `_runEach(i)`, with `spawn` the outcome of spawning job `i`. */
    method RunEach(i: nat, spawn: SpawnOutcome)
      modifies queue`jobs, queue`cursor, this`events, this`child, this`validation
      ensures State() == RunEachStep(old(State()), i, spawn)
    {
      if i >= |queue.jobs| {
        Emit(DoneEvent);
        return;
      }
      if canceled {
        return;
      }
      var current := queue.CurrentProcess(Some(i));
      Emit(SetupEvent(i));
      match spawn {
        case Started(pid) =>
          queue.jobs := queue.jobs[i := queue.jobs[i].(pid := pid)];
          Emit(SpawnedEvent(i));
          child := Some(i);
        case SpawnThrew(reason) =>
          ErrorHandler(ErrorInfo(reason));
          OnProcessTerminated(Some(-1));
      }
    }

    /** The child's `close` listener. */
    method OnClose(code: Option<int>)
      requires Valid(State()) && child.Some?
      modifies queue`jobs, this`events, this`child, this`validation
      ensures State() == CloseStep(old(State()), code)
      ensures Valid(State())
    {
      ghost var s := State();
      CloseStepValid(s, code);
      child := None;
      OnProcessTerminated(code);
    }

    /** The child's stdout `data` listener. */
    method OnStdout(chunk: string)
      requires Valid(State()) && child.Some?
      modifies queue`jobs
      ensures State() == StdoutStep(old(State()), chunk)
      ensures Valid(State())
    {
      OutputStepValid(State(), chunk);
      var c := child.value;
      queue.jobs := queue.jobs[c := queue.jobs[c].(stdout := queue.jobs[c].stdout + chunk)];
    }

    /** The child's stderr `data` listener. */
    method OnStderr(chunk: string)
      requires Valid(State()) && child.Some?
      modifies queue`jobs
      ensures State() == StderrStep(old(State()), chunk)
      ensures Valid(State())
    {
      OutputStepValid(State(), chunk);
      var c := child.value;
      queue.jobs := queue.jobs[c := queue.jobs[c].(stderr := queue.jobs[c].stderr + chunk)];
    }

    /** The `error` listeners of the child's stdout and stderr hand the error on as it is. */
    method OnStreamError(err: ErrorInfo)
      requires Valid(State()) && child.Some?
      modifies queue`jobs, this`events
      ensures State() == ErrorStep(old(State()), err)
      ensures Valid(State())
    {
      ChildErrorValid(State(), err);
      ErrorHandler(err);
    }

    /** The child's `error` listener: the message is prefixed with "Starting program failed: ". */
    method OnSpawnError(message: string)
      requires Valid(State()) && child.Some?
      modifies queue`jobs, this`events
      ensures State() == ErrorStep(old(State()), ErrorInfo("Starting program failed: " + message))
      ensures Valid(State())
    {
      ChildErrorValid(State(), ErrorInfo("Starting program failed: " + message));
      ErrorHandler(ErrorInfo("Starting program failed: " + message));
    }

    /** The validator's `result` listener, with `next` the outcome of spawning the job after it. */
    method OnValidatorResult(outcome: ValidatorOutcome, next: SpawnOutcome)
      requires Valid(State())
      modifies queue`jobs, queue`cursor, this`events, this`child, this`validation
      ensures old(validation).Some? ==> old(validation).value < |old(queue.jobs)|
      ensures State() == ValidatorStep(old(State()), outcome, next)
      ensures Valid(State())
    {
      ValidatorStepValid(State(), outcome, next);
      if validation.None? {
        return;
      }
      var p := validation.value;
      validation := None;
      queue.jobs := queue.jobs[p := queue.jobs[p].(validator := Some(outcome))];
      Emit(ResultEvent(p));
      RunEach(queue.jobs[p].desc.queueId + 1, next);
    }

    /**
     * `cancel`: without a current job the write to it throws and nothing
     * changes, which happens exactly before the first job of a run is set up.
     */
    method Cancel(killFailure: Option<string>) returns (r: Outcome<bool>)
      requires Valid(State())
      modifies queue`jobs, this`canceled, this`events
      ensures r.Threw? <==> Setups(old(State())) == []
      ensures r.Threw? ==> State() == old(State())
      ensures r.Returned? ==> r.value && HasCurrentJob(old(State())) && State() == CancelStep(old(State()), killFailure)
      ensures Valid(State())
    {
      CurrentOnceSetUp(State());
      if !queue.HasCurrent() {
        return Threw;
      }
      CancelStepValid(State(), killFailure);
      var c := queue.cursor;
      queue.jobs := queue.jobs[c := queue.jobs[c].(state := Canceled)];
      canceled := true;
      var failure := KillFailure(queue.jobs[c].pid, killFailure);
      if failure.Some? {
        ErrorHandler(ErrorInfo(failure.value));
      }
      Emit(CanceledEvent(c));
      r := Returned(true);
    }

    /**
     * `_initialize`: the cancel flag is reset and a new queue holds one job
     * per executed entry, thread variant and repeat, numbered from 0.
     */
    method Initialize(maxThreads: int, entries: seq<Entry>, parse: Parser)
      modifies this`canceled, this`queue
      ensures fresh(queue) && !canceled
      ensures queue.jobs == NewJobs(Build(entries, ThreadVariants(maxThreads), parse)) && queue.cursor == -1
    {
      canceled := false;
      var q := new BenchmarkQueue();
      queue := q;
      var queueId: nat := 0;
      var threads := ThreadVariants(maxThreads);
      var e := 0;
      while e < |entries|
        invariant 0 <= e <= |entries|
        invariant queue == q && fresh(q) && q.cursor == -1 && !canceled
        invariant q.jobs == NewJobs(Descriptors(Layout(entries[..e], threads), parse))
        invariant queueId == |Layout(entries[..e], threads)|
      {
        var benchmark := entries[e];
        if benchmark.execute {
          queueId := AddEntry(q, benchmark, threads, parse, queueId, Layout(entries[..e], threads));
        }
        LayoutSnoc(entries, e, threads);
        e := e + 1;
      }
      assert entries[..e] == entries;
    }

    /** The body of `_initialize`'s loop for one executed entry: its jobs, thread count by thread count. */
    static method AddEntry(q: BenchmarkQueue, benchmark: Entry, threads: seq<int>, parse: Parser,
                           queueId: nat, ghost slots: seq<Slot>) returns (next: nat)
      requires q.jobs == NewJobs(Descriptors(slots, parse)) && queueId == |slots|
      modifies q`jobs
      ensures q.jobs == NewJobs(Descriptors(slots + EntrySlots(benchmark, threads), parse))
      ensures next == |slots + EntrySlots(benchmark, threads)|
    {
      var repeats := EffectiveRepeats(benchmark.repeats);
      next := queueId;
      var t := 0;
      while t < |threads|
        invariant 0 <= t <= |threads|
        invariant q.jobs == NewJobs(Descriptors(slots + VariantSlots(benchmark, threads[..t], repeats), parse))
        invariant next == |slots + VariantSlots(benchmark, threads[..t], repeats)|
      {
        next := AddRepeats(q, benchmark, threads[t], repeats, parse, next);
        NextThread(slots, benchmark, threads, repeats, t, parse);
        t := t + 1;
      }
      assert threads[..t] == threads;
    }

    /** The innermost loop of `_initialize`: one job per repeat of one entry at one thread count. */
    static method AddRepeats(q: BenchmarkQueue, benchmark: Entry, thread: int, repeats: int, parse: Parser,
                             queueId: nat) returns (next: nat)
      modifies q`jobs
      ensures q.jobs == old(q.jobs) + NewJobs(ThreadDescriptors(benchmark, thread, repeats, queueId, parse))
      ensures next == queueId + Iterations(repeats)
    {
      ghost var ds := ThreadDescriptors(benchmark, thread, repeats, queueId, parse);
      next := queueId;
      var i := 0;
      while i < repeats
        invariant 0 <= i <= Iterations(repeats)
        invariant q.jobs == old(q.jobs) + NewJobs(ds[..i])
        invariant next == queueId + i
      {
        var d := MakeDescriptor(next, benchmark, thread, repeats, i, parse);
        assert d == ds[i] by { assert next == queueId + i; }
        q.AddProcess(d);
        AppendJob(old(q.jobs), ds, i);
        next := next + 1;
        i := i + 1;
      }
      assert ds[..i] == ds;
    }

    /**
     * `run` on an idle executor: the queue is built anew, its first job made
     * current, `initialize` emitted (the events of the new run start there)
     * and the jobs run from the first, which is spawned as `first` says.
     */
    method Run(maxThreads: int, entries: seq<Entry>, parse: Parser, first: SpawnOutcome)
      requires child.None? && validation.None?
      modifies this`canceled, this`queue, this`events, this`child, this`validation
      ensures fresh(queue)
      ensures State() == RunStep(NewJobs(Build(entries, ThreadVariants(maxThreads), parse)), first)
      ensures Valid(State())
    {
      Initialize(maxThreads, entries, parse);
      ghost var jobs := queue.jobs;
      events := [];
      var current := queue.CurrentProcess(Some(0));
      Emit(InitializeEvent);
      assert events == [InitializeEvent];
      assert State() == Initialized(jobs);
      RunEach(0, first);
      assert State() == RunStep(jobs, first);
      RunStepValid(Build(entries, ThreadVariants(maxThreads), parse), first);
    }
  }
}
