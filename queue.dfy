/**
 * The benchmark queue of benchmark_executor.js: the jobs (`BenchmarkProcess`)
 * that `_initialize` builds from the configuration entries, one per executed
 * entry, thread variant and repeat, and the queue object (`BenchmarkQueue`)
 * that holds them together with the cursor of the job being run.
 */
module Benchmark {
  import opened Wrappers
  import opened Decimal

  /**
   * One configuration entry, in the order the configuration enumerates them.
   * `repeats == 0` stands for a falsy `repeats` (absent or zero).
   */
  datatype Entry = Entry(id: string, command: string, execute: bool, repeats: int, expectedRuntime: real)

  /**
   * One element of an argument vector: a token of the parsed command line, or
   * the thread count, which the source appends as a number.
   */
  datatype Arg = Text(text: string) | Number(value: int)

  /** The command-line tokenizer the source takes from `shell-quote`. */
  type Parser = string -> seq<string>

  /** The fields `_initialize` gives a job when it adds it to the queue. */
  datatype Descriptor = Descriptor(
    queueId: nat,
    benchmarkId: string,
    benchmarkName: string,
    threads: int,
    repeat: int,
    repeats: int,
    shellCommand: Arg,
    shellArgs: seq<Arg>,
    resultFile: string,
    expectedRuntime: real)

  datatype State = Queued | Success | Failure | Canceled

  /** The `{message: ...}` object handed to the error handler. */
  datatype ErrorInfo = ErrorInfo(message: string)

  /** What the validator collaborator reports for a job; the executor only stores it. */
  type ValidatorOutcome = string

  /** A job of the queue: its descriptor and the fields the executor updates while running it. */
  datatype Job = Job(
    desc: Descriptor,
    state: State,
    pid: Option<int>,
    stdout: string,
    stderr: string,
    error: Option<ErrorInfo>,
    validator: Option<ValidatorOutcome>)

  /** A job as `add_process` creates it: the descriptor over the `BenchmarkProcess` defaults. */
  function NewJob(d: Descriptor): Job {
    Job(d, Queued, None, "", "", None, None)
  }

  function NewJobs(ds: seq<Descriptor>): (js: seq<Job>)
    ensures |js| == |ds|
    ensures forall k :: 0 <= k < |ds| ==> js[k] == NewJob(ds[k])
  {
    seq(|ds|, k requires 0 <= k < |ds| => NewJob(ds[k]))
  }

  // ---------------------------------------------------------------------
  // One job's derived fields
  // ---------------------------------------------------------------------

  /** The thread counts every executed entry runs with. */
  function ThreadVariants(maxThreads: int): seq<int> {
    if maxThreads == 1 then [1] else [1, maxThreads]
  }

  /** `benchmark.repeats ? benchmark.repeats : 1` */
  function EffectiveRepeats(repeats: int): int {
    if repeats != 0 then repeats else 1
  }

  /** How often `for (var i = 0; i < n; i++)` runs. */
  function Iterations(n: int): nat {
    if n > 0 then n else 0
  }

  function CoreName(thread: int): string {
    if thread == 1 then "single_core" else "multi_core"
  }

  /** The suffix that tells the repeats apart: none for a single repeat, else the 0-based index. */
  function RepeatName(repeats: int, i: nat): string {
    if repeats == 1 then "" else "." + NatToString(i)
  }

  function ResultFile(id: string, thread: int, repeats: int, i: nat): string {
    "./results/" + id + "." + CoreName(thread) + RepeatName(repeats, i) + ".result.txt"
  }

  function BenchmarkName(id: string, thread: int, repeats: int, i: nat): string {
    id + RepeatName(repeats, i) + " -tc " + IntToString(thread)
  }

  function Texts(tokens: seq<string>): (args: seq<Arg>)
    ensures |args| == |tokens|
    ensures forall k :: 0 <= k < |tokens| ==> args[k] == Text(tokens[k])
  {
    seq(|tokens|, k requires 0 <= k < |tokens| => Text(tokens[k]))
  }

  /** The parsed command followed by the three appended tokens. */
  function CommandLine(tokens: seq<string>, file: string, thread: int): seq<Arg> {
    Texts(tokens) + [Text(file), Text("-tc"), Number(thread)]
  }

  /** The job for repeat `i` (0-based) of entry `e` at thread count `thread`. */
  function MakeDescriptor(queueId: nat, e: Entry, thread: int, repeats: int, i: nat, parse: Parser): Descriptor {
    var file := ResultFile(e.id, thread, repeats, i);
    var argv := CommandLine(parse(e.command), file, thread);
    Descriptor(queueId, e.id, BenchmarkName(e.id, thread, repeats, i), thread, i + 1, repeats,
               argv[0], argv[1..], file, e.expectedRuntime)
  }

  /**
   * A job's derived fields: its `repeat` is 1-based while its display name and
   * result file carry the 0-based index; its command is the first word of the
   * command line and its arguments the rest, so "-tc" and the thread count
   * always end the arguments, preceded by the result file whenever the parsed
   * command has a word.
   */
  lemma DescriptorFields(queueId: nat, e: Entry, thread: int, repeats: int, i: nat, parse: Parser)
    ensures var d := MakeDescriptor(queueId, e, thread, repeats, i, parse);
            && d.queueId == queueId && d.benchmarkId == e.id && d.threads == thread && d.repeats == repeats
            && d.repeat == i + 1
            && d.resultFile == ResultFile(e.id, thread, repeats, d.repeat - 1)
            && d.benchmarkName == BenchmarkName(e.id, thread, repeats, d.repeat - 1)
            && [d.shellCommand] + d.shellArgs == CommandLine(parse(e.command), d.resultFile, thread)
            && |d.shellArgs| >= 2 && d.shellArgs[|d.shellArgs| - 2..] == [Text("-tc"), Number(thread)]
            && (|parse(e.command)| > 0 ==>
                  d.shellCommand == Text(parse(e.command)[0]) &&
                  d.shellArgs[|d.shellArgs| - 3..] == [Text(d.resultFile), Text("-tc"), Number(thread)])
            && (|parse(e.command)| == 0 ==> d.shellCommand == Text(d.resultFile))
  {
    var d := MakeDescriptor(queueId, e, thread, repeats, i, parse);
    var argv := CommandLine(parse(e.command), d.resultFile, thread);
    assert [argv[0]] + argv[1..] == argv;
  }

  // ---------------------------------------------------------------------
  // The queue `_initialize` builds
  // ---------------------------------------------------------------------

  /** Which run a job is: the entry, the thread count and the 0-based repeat index out of `repeats`. */
  datatype Slot = Slot(entry: Entry, thread: int, repeats: int, index: nat)

  /** The repeats of one entry at one thread count. */
  function ThreadSlots(e: Entry, thread: int, repeats: int): (ss: seq<Slot>)
    ensures |ss| == Iterations(repeats)
    ensures forall i :: 0 <= i < |ss| ==> ss[i] == Slot(e, thread, repeats, i)
  {
    seq(Iterations(repeats), i requires 0 <= i < Iterations(repeats) => Slot(e, thread, repeats, i))
  }

  /** The runs of one entry for the thread counts `threads`, thread by thread. */
  function VariantSlots(e: Entry, threads: seq<int>, repeats: int): seq<Slot> {
    if threads == [] then []
    else VariantSlots(e, threads[..|threads| - 1], repeats) + ThreadSlots(e, threads[|threads| - 1], repeats)
  }

  function EntrySlots(e: Entry, threads: seq<int>): seq<Slot> {
    VariantSlots(e, threads, EffectiveRepeats(e.repeats))
  }

  /** The runs of the queue: entry by entry, skipping those not to execute. */
  function Layout(entries: seq<Entry>, threads: seq<int>): seq<Slot> {
    if entries == [] then []
    else
      var e := entries[|entries| - 1];
      Layout(entries[..|entries| - 1], threads) + (if e.execute then EntrySlots(e, threads) else [])
  }

  /** The job at position `queueId` for the run `s`. */
  function Describe(queueId: nat, s: Slot, parse: Parser): Descriptor {
    MakeDescriptor(queueId, s.entry, s.thread, s.repeats, s.index, parse)
  }

  /** One job per run, numbered by position. */
  function Descriptors(slots: seq<Slot>, parse: Parser): (ds: seq<Descriptor>)
    ensures |ds| == |slots|
    ensures forall k :: 0 <= k < |ds| ==> ds[k] == Describe(k, slots[k], parse)
  {
    seq(|slots|, k requires 0 <= k < |slots| => Describe(k, slots[k], parse))
  }

  /** The queue `_initialize` builds for `entries` with the thread counts `threads`; a job's id is its position. */
  function Build(entries: seq<Entry>, threads: seq<int>, parse: Parser): (ds: seq<Descriptor>)
    ensures |ds| == |Layout(entries, threads)|
    ensures forall k :: 0 <= k < |ds| ==> ds[k].queueId == k
  {
    Descriptors(Layout(entries, threads), parse)
  }

  /** How many jobs an entry contributes: one per thread count and repeat (its repeats, or 1). */
  function EntryJobCount(e: Entry, threads: seq<int>): nat {
    if e.execute then |threads| * Iterations(EffectiveRepeats(e.repeats)) else 0
  }

  function JobCount(entries: seq<Entry>, threads: seq<int>): nat {
    if entries == [] then 0
    else JobCount(entries[..|entries| - 1], threads) + EntryJobCount(entries[|entries| - 1], threads)
  }

  /** The sum of the expected runtimes, in the order of `reduce`. */
  function SumExpected(jobs: seq<Job>): real {
    if jobs == [] then 0.0
    else SumExpected(jobs[..|jobs| - 1]) + jobs[|jobs| - 1].desc.expectedRuntime
  }

  /** The expected runtimes of the entries of the runs. */
  function SlotsRuntime(slots: seq<Slot>): real {
    if slots == [] then 0.0
    else SlotsRuntime(slots[..|slots| - 1]) + slots[|slots| - 1].entry.expectedRuntime
  }

  /** `x` added up `n` times. */
  function Scaled(n: nat, x: real): real {
    if n == 0 then 0.0 else Scaled(n - 1, x) + x
  }

  function ExpectedTotal(entries: seq<Entry>, threads: seq<int>): real {
    if entries == [] then 0.0
    else
      var e := entries[|entries| - 1];
      ExpectedTotal(entries[..|entries| - 1], threads) + Scaled(EntryJobCount(e, threads), e.expectedRuntime)
  }

  // ---------------------------------------------------------------------
  // Properties of the built queue
  // ---------------------------------------------------------------------

  lemma {:induction false} VariantSlotsLength(e: Entry, threads: seq<int>, repeats: int)
    ensures |VariantSlots(e, threads, repeats)| == |threads| * Iterations(repeats)
  {
    if threads != [] {
      var n := |threads|;
      VariantSlotsLength(e, threads[..n - 1], repeats);
      assert (n - 1) * Iterations(repeats) + Iterations(repeats) == n * Iterations(repeats);
    }
  }

  lemma EarlierBlock(t: nat, i: nat, n: nat, r: nat)
    requires t + 1 < n && i < r
    ensures t * r + i < (n - 1) * r
  {
    assert t * r + r <= (n - 1) * r by {
      assert (t + 1) * r <= (n - 1) * r;
    }
  }

  /** The offset of repeat `i` of the `t`-th thread count among the `r`-repeat runs of an entry. */
  function Offset(t: nat, r: nat, i: nat): nat {
    t * r + i
  }

  /** The position of repeat `i` of the `t`-th thread count of entry `e`: after the runs of the entries before it. */
  function RunIndex(entries: seq<Entry>, threads: seq<int>, e: nat, t: nat, i: nat): nat
    requires e < |entries|
  {
    JobCount(entries[..e], threads) + Offset(t, Iterations(EffectiveRepeats(entries[e].repeats)), i)
  }

  /** Repeat `i` of thread count `t` sits at offset `t * repeats + i`: thread count first, then repeat. */
  lemma {:induction false} VariantSlotsAt(e: Entry, threads: seq<int>, repeats: int, t: nat, i: nat)
    requires t < |threads| && i < Iterations(repeats)
    ensures Offset(t, Iterations(repeats), i) < |VariantSlots(e, threads, repeats)|
    ensures VariantSlots(e, threads, repeats)[Offset(t, Iterations(repeats), i)] == Slot(e, threads[t], repeats, i)
  {
    var n := |threads|;
    var r := Iterations(repeats);
    var prev := VariantSlots(e, threads[..n - 1], repeats);
    var last := ThreadSlots(e, threads[n - 1], repeats);
    assert VariantSlots(e, threads, repeats) == prev + last;
    VariantSlotsLength(e, threads[..n - 1], repeats);
    if t < n - 1 {
      VariantSlotsAt(e, threads[..n - 1], repeats, t, i);
      EarlierBlock(t, i, n, r);
      assert threads[..n - 1][t] == threads[t];
    } else {
      assert t * r == |prev|;
    }
  }

  /** Every run of an entry is of that entry, with its repeat count and one of the thread counts. */
  lemma {:induction false} VariantSlotsFromEntry(e: Entry, threads: seq<int>, repeats: int)
    ensures forall k :: 0 <= k < |VariantSlots(e, threads, repeats)| ==>
              && VariantSlots(e, threads, repeats)[k].entry == e
              && VariantSlots(e, threads, repeats)[k].repeats == repeats
              && VariantSlots(e, threads, repeats)[k].thread in threads
  {
    if threads != [] {
      var n := |threads|;
      var prev := VariantSlots(e, threads[..n - 1], repeats);
      var last := ThreadSlots(e, threads[n - 1], repeats);
      VariantSlotsFromEntry(e, threads[..n - 1], repeats);
      var ss := prev + last;
      assert ss == VariantSlots(e, threads, repeats);
      forall k | 0 <= k < |ss|
        ensures ss[k].entry == e && ss[k].repeats == repeats && ss[k].thread in threads
      {
        if k < |prev| {
          assert ss[k] == prev[k];
          var x := prev[k].thread;
          assert x in threads[..n - 1];
          var j :| 0 <= j < n - 1 && threads[..n - 1][j] == x;
          assert threads[j] == x;
        } else {
          assert ss[k] == last[k - |prev|];
        }
      }
    }
  }

  /** The queue holds one job per thread count and repeat of each executed entry, and none for the others. */
  lemma {:induction false} LayoutLength(entries: seq<Entry>, threads: seq<int>)
    ensures |Layout(entries, threads)| == JobCount(entries, threads)
  {
    if entries != [] {
      var n := |entries|;
      LayoutLength(entries[..n - 1], threads);
      var e := entries[n - 1];
      if e.execute {
        VariantSlotsLength(e, threads, EffectiveRepeats(e.repeats));
      }
    }
  }

  /** The runs for a prefix of the entries are a prefix of the runs. */
  lemma {:induction false} LayoutPrefix(entries: seq<Entry>, m: nat, threads: seq<int>)
    requires m <= |entries|
    ensures |Layout(entries[..m], threads)| <= |Layout(entries, threads)|
    ensures Layout(entries, threads)[..|Layout(entries[..m], threads)|] == Layout(entries[..m], threads)
  {
    if m < |entries| {
      var n := |entries|;
      assert entries[..n - 1][..m] == entries[..m];
      LayoutPrefix(entries[..n - 1], m, threads);
    } else {
      assert entries[..m] == entries;
    }
  }

  /** Adding an entry appends its runs. */
  lemma LayoutSnoc(entries: seq<Entry>, e: nat, threads: seq<int>)
    requires e < |entries|
    ensures Layout(entries[..e + 1], threads)
         == Layout(entries[..e], threads) + (if entries[e].execute then EntrySlots(entries[e], threads) else [])
  {
    assert entries[..e + 1][..e] == entries[..e];
    assert entries[..e + 1][e] == entries[e];
  }

  /**
   * Where each run sits: repeat `i` of thread count `t` of the executed entry
   * `e` comes after the runs of the entries before `e`, at offset
   * t * repeats + i. Runs are ordered by entry, then thread count, then repeat.
   */
  lemma SlotPosition(entries: seq<Entry>, threads: seq<int>, e: nat, t: nat, i: nat)
    requires e < |entries| && entries[e].execute
    requires t < |threads|
    requires i < Iterations(EffectiveRepeats(entries[e].repeats))
    ensures RunIndex(entries, threads, e, t, i) < |Layout(entries, threads)|
    ensures Layout(entries, threads)[RunIndex(entries, threads, e, t, i)]
         == Slot(entries[e], threads[t], EffectiveRepeats(entries[e].repeats), i)
  {
    var repeats := EffectiveRepeats(entries[e].repeats);
    var pre := Layout(entries[..e], threads);
    var mine := EntrySlots(entries[e], threads);
    LayoutLength(entries[..e], threads);
    VariantSlotsAt(entries[e], threads, repeats, t, i);
    LayoutSnoc(entries, e, threads);
    LayoutPrefix(entries, e + 1, threads);
    IndexThrough(Layout(entries, threads), pre, mine, Offset(t, Iterations(repeats), i));
  }

  lemma IndexThrough(all: seq<Slot>, pre: seq<Slot>, mine: seq<Slot>, j: nat)
    requires j < |mine| && |pre| + |mine| <= |all| && all[..|pre| + |mine|] == pre + mine
    ensures all[|pre| + j] == mine[j]
  {
    assert all[|pre| + j] == all[..|pre| + |mine|][|pre| + j];
  }

  /**
   * The job for repeat `i` of thread count `t` of the executed entry `e`:
   * its position in the queue, which is also its id, and its fields.
   */
  lemma JobPosition(entries: seq<Entry>, threads: seq<int>, parse: Parser, e: nat, t: nat, i: nat)
    requires e < |entries| && entries[e].execute
    requires t < |threads|
    requires i < Iterations(EffectiveRepeats(entries[e].repeats))
    ensures RunIndex(entries, threads, e, t, i) < |Build(entries, threads, parse)|
    ensures Build(entries, threads, parse)[RunIndex(entries, threads, e, t, i)]
         == MakeDescriptor(RunIndex(entries, threads, e, t, i), entries[e], threads[t], EffectiveRepeats(entries[e].repeats), i, parse)
  {
    SlotPosition(entries, threads, e, t, i);
  }

  /** The jobs of one entry's repeats at one thread count, numbered from `base`. */
  function ThreadDescriptors(e: Entry, thread: int, repeats: int, base: nat, parse: Parser): (ds: seq<Descriptor>)
    ensures |ds| == Iterations(repeats)
    ensures forall i :: 0 <= i < |ds| ==> ds[i] == MakeDescriptor(base + i, e, thread, repeats, i, parse)
  {
    seq(Iterations(repeats), i requires 0 <= i < Iterations(repeats) => MakeDescriptor(base + i, e, thread, repeats, i, parse))
  }

  /** Numbering the repeats of one thread count from where the runs before them end. */
  lemma DescriptorsThreadSlots(slots: seq<Slot>, e: Entry, thread: int, repeats: int, parse: Parser)
    ensures Descriptors(slots + ThreadSlots(e, thread, repeats), parse)
         == Descriptors(slots, parse) + ThreadDescriptors(e, thread, repeats, |slots|, parse)
  {
    var all := slots + ThreadSlots(e, thread, repeats);
    var lhs := Descriptors(all, parse);
    var rhs := Descriptors(slots, parse) + ThreadDescriptors(e, thread, repeats, |slots|, parse);
    forall k | 0 <= k < |lhs|
      ensures lhs[k] == rhs[k]
    {
      if k < |slots| {
        assert all[k] == slots[k];
        assert rhs[k] == Descriptors(slots, parse)[k];
      } else {
        var i := k - |slots|;
        assert all[k] == Slot(e, thread, repeats, i);
        assert rhs[k] == ThreadDescriptors(e, thread, repeats, |slots|, parse)[i];
      }
    }
  }

  lemma NewJobsConcat(a: seq<Descriptor>, b: seq<Descriptor>)
    ensures NewJobs(a + b) == NewJobs(a) + NewJobs(b)
  {
    assert forall k :: 0 <= k < |a| + |b| ==> NewJobs(a + b)[k] == (NewJobs(a) + NewJobs(b))[k];
  }

  /** One more step of a loop that adds the jobs for `ds` one by one after `prefix`. */
  lemma AppendJob(prefix: seq<Job>, ds: seq<Descriptor>, i: nat)
    requires i < |ds|
    ensures prefix + NewJobs(ds[..i]) + [NewJob(ds[i])] == prefix + NewJobs(ds[..i + 1])
  {
    assert ds[..i + 1] == ds[..i] + [ds[i]];
    NewJobsConcat(ds[..i], [ds[i]]);
  }

  lemma VariantSlotsSnoc(e: Entry, threads: seq<int>, repeats: int, t: nat)
    requires t < |threads|
    ensures VariantSlots(e, threads[..t + 1], repeats) == VariantSlots(e, threads[..t], repeats) + ThreadSlots(e, threads[t], repeats)
  {
    assert threads[..t + 1][..t] == threads[..t];
  }

  /** The runs of one more thread count follow those of the thread counts before it. */
  lemma NextThreadSlots(slots: seq<Slot>, e: Entry, threads: seq<int>, repeats: int, t: nat)
    requires t < |threads|
    ensures slots + VariantSlots(e, threads[..t], repeats) + ThreadSlots(e, threads[t], repeats)
            == slots + VariantSlots(e, threads[..t + 1], repeats)
  {
    VariantSlotsSnoc(e, threads, repeats, t);
  }

  /** The jobs of one more thread count follow those of the thread counts before it. */
  lemma NextThread(slots: seq<Slot>, e: Entry, threads: seq<int>, repeats: int, t: nat, parse: Parser)
    requires t < |threads|
    ensures var done := slots + VariantSlots(e, threads[..t], repeats);
            && NewJobs(Descriptors(done, parse)) + NewJobs(ThreadDescriptors(e, threads[t], repeats, |done|, parse))
               == NewJobs(Descriptors(slots + VariantSlots(e, threads[..t + 1], repeats), parse))
            && |done| + Iterations(repeats) == |slots + VariantSlots(e, threads[..t + 1], repeats)|
  {
    var done := slots + VariantSlots(e, threads[..t], repeats);
    var added := ThreadDescriptors(e, threads[t], repeats, |done|, parse);
    NextThreadSlots(slots, e, threads, repeats, t);
    calc {
      NewJobs(Descriptors(slots + VariantSlots(e, threads[..t + 1], repeats), parse));
      NewJobs(Descriptors(done + ThreadSlots(e, threads[t], repeats), parse));
      { DescriptorsThreadSlots(done, e, threads[t], repeats, parse); }
      NewJobs(Descriptors(done, parse) + added);
      { NewJobsConcat(Descriptors(done, parse), added); }
      NewJobs(Descriptors(done, parse)) + NewJobs(added);
    }
  }

  /** Adding `x` up `n` times is multiplying it by `n`. */
  lemma {:induction false} ScaledProduct(n: nat, x: real)
    ensures Scaled(n, x) == (n as real) * x
  {
    if n > 0 {
      ScaledProduct(n - 1, x);
      assert ((n - 1) as real) * x + x == (n as real) * x;
    }
  }

  lemma {:induction false} SlotsRuntimeConcat(a: seq<Slot>, b: seq<Slot>)
    ensures SlotsRuntime(a + b) == SlotsRuntime(a) + SlotsRuntime(b)
  {
    if b != [] {
      assert (a + b)[..|a + b| - 1] == a + b[..|b| - 1];
      SlotsRuntimeConcat(a, b[..|b| - 1]);
    } else {
      assert a + b == a;
    }
  }

  lemma {:induction false} SlotsRuntimeUniform(slots: seq<Slot>, e: Entry)
    requires forall k :: 0 <= k < |slots| ==> slots[k].entry == e
    ensures SlotsRuntime(slots) == Scaled(|slots|, e.expectedRuntime)
  {
    if slots != [] {
      SlotsRuntimeUniform(slots[..|slots| - 1], e);
    }
  }

  lemma {:induction false} LayoutRuntime(entries: seq<Entry>, threads: seq<int>)
    ensures SlotsRuntime(Layout(entries, threads)) == ExpectedTotal(entries, threads)
  {
    if entries != [] {
      var n := |entries|;
      var e := entries[n - 1];
      var prev := Layout(entries[..n - 1], threads);
      LayoutRuntime(entries[..n - 1], threads);
      if e.execute {
        var mine := EntrySlots(e, threads);
        SlotsRuntimeConcat(prev, mine);
        VariantSlotsFromEntry(e, threads, EffectiveRepeats(e.repeats));
        VariantSlotsLength(e, threads, EffectiveRepeats(e.repeats));
        SlotsRuntimeUniform(mine, e);
      } else {
        assert Layout(entries, threads) == prev;
      }
    }
  }

  /** A job's expected runtime is its entry's. */
  lemma {:induction false} DescribedRuntime(slots: seq<Slot>, parse: Parser)
    ensures SumExpected(NewJobs(Descriptors(slots, parse))) == SlotsRuntime(slots)
  {
    if slots != [] {
      var n := |slots|;
      var jobs := NewJobs(Descriptors(slots, parse));
      assert jobs[..n - 1] == NewJobs(Descriptors(slots[..n - 1], parse));
      DescribedRuntime(slots[..n - 1], parse);
      assert jobs[n - 1].desc == MakeDescriptor(n - 1, slots[n - 1].entry, slots[n - 1].thread,
                                                slots[n - 1].repeats, slots[n - 1].index, parse);
    }
  }

  /** `total_expected_runtime` of the built queue: each executed entry's expected runtime once per job of it. */
  lemma BuildExpectedTotal(entries: seq<Entry>, threads: seq<int>, parse: Parser)
    ensures SumExpected(NewJobs(Build(entries, threads, parse))) == ExpectedTotal(entries, threads)
  {
    DescribedRuntime(Layout(entries, threads), parse);
    LayoutRuntime(entries, threads);
  }

  /** `total_expected_runtime` of a queue holding the built jobs: each executed entry's expected runtime times its number of jobs. */
  lemma QueueExpectedTotal(q: BenchmarkQueue, entries: seq<Entry>, threads: seq<int>, parse: Parser)
    requires q.jobs == NewJobs(Build(entries, threads, parse))
    ensures q.TotalExpectedRuntime() == ExpectedTotal(entries, threads)
  {
    BuildExpectedTotal(entries, threads, parse);
  }

  /**
   * Within one entry no two jobs share a result file: the thread variants
   * differ in the core name, the repeats in the 0-based suffix.
   */
  lemma ResultFilesDistinct(id: string, maxThreads: int, repeats: int, t1: nat, i1: nat, t2: nat, i2: nat)
    requires t1 < |ThreadVariants(maxThreads)| && t2 < |ThreadVariants(maxThreads)|
    requires i1 < Iterations(repeats) && i2 < Iterations(repeats)
    requires (t1, i1) != (t2, i2)
    ensures ResultFile(id, ThreadVariants(maxThreads)[t1], repeats, i1)
         != ResultFile(id, ThreadVariants(maxThreads)[t2], repeats, i2)
  {
    var ts := ThreadVariants(maxThreads);
    var p := "./results/" + id + ".";
    var s := ".result.txt";
    var c1, c2 := CoreName(ts[t1]), CoreName(ts[t2]);
    var r1, r2 := RepeatName(repeats, i1), RepeatName(repeats, i2);
    if t1 != t2 {
      CharAfter(p, c1, r1, s);
      CharAfter(p, c2, r2, s);
      assert c1[0] != c2[0];
    } else if p + c1 + r1 + s == p + c2 + r2 + s {
      CancelPrefix(p + c1, r1, r2, s);
      assert repeats != 1;
      assert r1[1..] == NatToString(i1);
      assert r2[1..] == NatToString(i2);
      NatToStringInjective(i1, i2);
    }
  }

  lemma CharAfter(p: string, c: string, r: string, s: string)
    requires |c| > 0
    ensures (p + c + r + s)[|p|] == c[0]
  {
  }

  lemma CancelPrefix(p: string, x: string, y: string, s: string)
    requires p + x + s == p + y + s
    ensures x == y
  {
    assert x == (p + x + s)[|p|..|p| + |x|];
    assert y == (p + y + s)[|p|..|p| + |y|];
  }

  // ---------------------------------------------------------------------
  // The queue object
  // ---------------------------------------------------------------------

  /** `BenchmarkQueue`: the jobs in order and the cursor `_queue_id` of the current one. */
  class BenchmarkQueue {
    var jobs: seq<Job>
    /** `_queue_id`; -1 stands for the `undefined` of a fresh queue, which selects no job. */
    var cursor: int

    constructor ()
      ensures jobs == [] && cursor == -1
    {
      jobs := [];
      cursor := -1;
    }

    /** `add_process`: appends a fresh job for the descriptor. */
    method AddProcess(d: Descriptor)
      modifies this`jobs
      ensures jobs == old(jobs) + [NewJob(d)]
    {
      jobs := jobs + [NewJob(d)];
    }

    predicate HasCurrent()
      reads this
    {
      0 <= cursor < |jobs|
    }

    /** `current_process(queue_id)`: moves the cursor when an id is given, then returns the job under it. */
    method CurrentProcess(queueId: Option<int>) returns (job: Option<Job>)
      modifies this`cursor
      ensures cursor == if queueId.Some? then queueId.value else old(cursor)
      ensures job.Some? <==> HasCurrent()
      ensures job.Some? ==> job.value == jobs[cursor]
    {
      if queueId.Some? {
        cursor := queueId.value;
      }
      job := if HasCurrent() then Some(jobs[cursor]) else None;
    }

    /** `total_expected_runtime` */
    function TotalExpectedRuntime(): real
      reads this
    {
      SumExpected(jobs)
    }
  }
}
