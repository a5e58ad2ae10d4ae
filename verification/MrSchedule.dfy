/**
 Scheduling of a phase on workers, as steps of the master's goroutines
 (mapreduce/schedule.go:43-76, mapreduce/master.go:36-46, 85-119,
 mapreduce/worker.go:40-94).  A worker's token is its name waiting to be sent
 to, or held by, a task goroutine.  A call may fail before or after the worker
 has done its work, which is then done again.  Workers register once.
 */
module MrSchedule {
  import opened MrNames
  import opened MrGroup
  import opened MrTasks
  import MrMaster

  datatype Phase = MapPhase | ReducePhase

  /** A task goroutine receives a worker, calls it, and repeats until a call succeeds. */
  datatype Task = Waiting | Calling(worker: string) | Finished

  datatype State = State(
    workers: seq<string>,          // registered
    forwarded: nat,                // how many of them were announced
    offers: multiset<string>,      // goroutines blocked sending a name
    tasks: seq<Task>,              // task goroutines started so far
    files: Files)

  datatype Step =
    | Register(worker: string)
    | Forward
    | Start
    | Take(task: nat, worker: string)
    | Reply(task: nat, ran: bool, ok: bool, out: seq<KeyValue>)

  function TaskCount(job: Job, phase: Phase): nat {
    if phase.MapPhase? then |job.inputs| else job.nReduce
  }

  /** The loop that starts the tasks indexes the input files in both phases. */
  ghost predicate Enabled(job: Job, phase: Phase, s: State, step: Step) {
    match step
    case Register(w) => w !in s.workers
    case Forward => s.forwarded < |s.workers|
    case Start => |s.tasks| < TaskCount(job, phase) && |s.tasks| < |job.inputs|
    case Take(t, w) => t < |s.tasks| && s.tasks[t].Waiting? && w in s.offers
    case Reply(t, ran, ok, out) =>
      t < |s.tasks| && s.tasks[t].Calling? && (ok ==> ran) && (ran ==> Runs(job, phase, s.files, t, out))
  }

  /** Task `t` can be run; a reduce task writes `out`. */
  ghost predicate Runs(job: Job, phase: Phase, files: Files, t: nat, out: seq<KeyValue>) {
    if phase.MapPhase? then t < |job.inputs| && job.nReduce > 0
    else HasInputs(files, job, |job.inputs|, t) && Reduces(out, Inputs(files, job, |job.inputs|, t), job.reduceF)
  }

  ghost function Effect(job: Job, phase: Phase, files: Files, t: nat, out: seq<KeyValue>): Files
    requires Runs(job, phase, files, t, out)
  {
    if phase.MapPhase? then MapFiles(files, job, t, job.nReduce) else files[MergeName(job.name, t) := out]
  }

  ghost function Next(job: Job, phase: Phase, s: State, step: Step): State {
    if !Enabled(job, phase, s, step) then s
    else match step
      case Register(w) => s.(workers := s.workers + [w])
      case Forward => s.(forwarded := s.forwarded + 1, offers := s.offers + multiset{s.workers[s.forwarded]})
      case Start => s.(tasks := s.tasks + [Waiting])
      case Take(t, w) => s.(offers := s.offers - multiset{w}, tasks := s.tasks[t := Calling(w)])
      case Reply(t, ran, ok, out) =>
        s.(offers := s.offers + multiset{s.tasks[t].worker},
           tasks := s.tasks[t := if ok then Finished else Waiting],
           files := if ran then Effect(job, phase, s.files, t, out) else s.files)
  }

  /** A phase begins with a new channel; all workers are announced again. */
  function Init(workers: seq<string>, files: Files): State {
    State(workers, 0, multiset{}, [], files)
  }

  ghost function Run(job: Job, phase: Phase, s0: State, steps: seq<Step>): State {
    if steps == [] then s0
    else Next(job, phase, Run(job, phase, s0, steps[..|steps| - 1]), steps[|steps| - 1])
  }

  /** All tasks were started and have ended: `schedule` returns. */
  ghost predicate Returned(job: Job, phase: Phase, s: State) {
    |s.tasks| == TaskCount(job, phase) && forall t :: 0 <= t < |s.tasks| ==> s.tasks[t].Finished?
  }

  // ----- tokens

  /** How many tasks hold the worker. */
  function Holding(tasks: seq<Task>, w: string): nat {
    if tasks == [] then 0
    else Holding(tasks[..|tasks| - 1], w) + if tasks[|tasks| - 1] == Calling(w) then 1 else 0
  }

  lemma {:induction false} HoldingUpdate(tasks: seq<Task>, t: nat, x: Task, w: string)
    requires t < |tasks|
    ensures Holding(tasks[t := x], w) + (if tasks[t] == Calling(w) then 1 else 0)
         == Holding(tasks, w) + if x == Calling(w) then 1 else 0
  {
    var k := |tasks| - 1;
    if t == k {
      assert tasks[t := x][..k] == tasks[..k];
    } else {
      assert tasks[t := x][..k] == tasks[..k][t := x];
      HoldingUpdate(tasks[..k], t, x, w);
    }
  }

  lemma {:induction false} HoldingAtLeast(tasks: seq<Task>, ts: set<nat>, w: string)
    requires forall t :: t in ts ==> t < |tasks| && tasks[t] == Calling(w)
    ensures |ts| <= Holding(tasks, w)
  {
    if tasks == [] {
      assert ts == {};
    } else {
      var k := |tasks| - 1;
      HoldingAtLeast(tasks[..k], ts - {k}, w);
    }
  }

  /** A worker announced has one token, offered or held; another has none. */
  ghost predicate TokenOk(s: State, w: string) {
    s.forwarded <= |s.workers| && s.offers[w] + Holding(s.tasks, w) == if w in s.workers[..s.forwarded] then 1 else 0
  }

  ghost predicate TokenInv(s: State) {
    && s.forwarded <= |s.workers| && (forall i, j :: 0 <= i < j < |s.workers| ==> s.workers[i] != s.workers[j])
    && forall w :: TokenOk(s, w)
  }

  lemma ForwardToken(s: State, w: string)
    requires TokenInv(s) && s.forwarded < |s.workers|
    ensures TokenOk(s.(forwarded := s.forwarded + 1, offers := s.offers + multiset{s.workers[s.forwarded]}), w)
  {
    assert TokenOk(s, w);
    assert s.workers[..s.forwarded + 1] == s.workers[..s.forwarded] + [s.workers[s.forwarded]];
    assert s.workers[s.forwarded] !in s.workers[..s.forwarded];
  }

  /** A task takes a worker from the offers, or gives it back to them. */
  lemma TaskToken(s: State, t: nat, x: Task, offers: multiset<string>, w: string)
    requires TokenOk(s, w) && t < |s.tasks|
    requires offers[w] + (if x == Calling(w) then 1 else 0) == s.offers[w] + if s.tasks[t] == Calling(w) then 1 else 0
    ensures TokenOk(s.(offers := offers, tasks := s.tasks[t := x]), w)
  {
    HoldingUpdate(s.tasks, t, x, w);
  }

  lemma TokenKept(job: Job, phase: Phase, s: State, step: Step, w: string)
    requires TokenInv(s) && Enabled(job, phase, s, step)
    ensures TokenOk(Next(job, phase, s, step), w)
  {
    hide Runs, Effect, Holding;
    assert TokenOk(s, w);
    match step
    case Register(x) => assert (s.workers + [x])[..s.forwarded] == s.workers[..s.forwarded];
    case Forward => ForwardToken(s, w);
    case Start => WaitingHoldsNone(s.tasks, w);
    case Take(t, x) => TaskToken(s, t, Calling(x), s.offers - multiset{x}, w);
    case Reply(t, ran, ok, out) =>
      TaskToken(s, t, if ok then Finished else Waiting, s.offers + multiset{s.tasks[t].worker}, w);
  }

  lemma WaitingHoldsNone(tasks: seq<Task>, w: string)
    ensures Holding(tasks + [Waiting], w) == Holding(tasks, w)
  {
    assert (tasks + [Waiting])[..|tasks|] == tasks;
  }

  lemma TokenStep(job: Job, phase: Phase, s: State, step: Step)
    requires TokenInv(s)
    ensures TokenInv(Next(job, phase, s, step))
  {
    hide Runs, Effect, TokenOk;
    if Enabled(job, phase, s, step) {
      forall w ensures TokenOk(Next(job, phase, s, step), w) {
        TokenKept(job, phase, s, step, w);
      }
    }
  }

  lemma {:induction false} RunTokens(job: Job, phase: Phase, workers: seq<string>, files: Files, steps: seq<Step>)
    requires forall i, j :: 0 <= i < j < |workers| ==> workers[i] != workers[j]
    ensures TokenInv(Run(job, phase, Init(workers, files), steps))
  {
    if steps != [] {
      RunTokens(job, phase, workers, files, steps[..|steps| - 1]);
      TokenStep(job, phase, Run(job, phase, Init(workers, files), steps[..|steps| - 1]), steps[|steps| - 1]);
    }
  }

  /** In every interleaving, each registered worker is in exactly one place: not yet
      announced, offered, or held by one task. */
  lemma OneToken(job: Job, phase: Phase, workers: seq<string>, files: Files, steps: seq<Step>, w: string)
    requires forall i, j :: 0 <= i < j < |workers| ==> workers[i] != workers[j]
    ensures var s := Run(job, phase, Init(workers, files), steps);
      && s.forwarded <= |s.workers|
      && (if w in s.workers[s.forwarded..] then 1 else 0) + s.offers[w] + Holding(s.tasks, w) ==
        if w in s.workers then 1 else 0
  {
    RunTokens(job, phase, workers, files, steps);
    hide Run;
    var s := Run(job, phase, Init(workers, files), steps);
    assert TokenOk(s, w);
    assert s.workers == s.workers[..s.forwarded] + s.workers[s.forwarded..];
  }

  /** No worker is ever given two tasks at once. */
  lemma OneTaskPerWorker(job: Job, phase: Phase, workers: seq<string>, files: Files, steps: seq<Step>, t: nat, u: nat)
    requires forall i, j :: 0 <= i < j < |workers| ==> workers[i] != workers[j]
    requires var tasks := Run(job, phase, Init(workers, files), steps).tasks;
      t < |tasks| && u < |tasks| && tasks[t].Calling? && tasks[u] == tasks[t]
    ensures t == u
  {
    RunTokens(job, phase, workers, files, steps);
    hide Run;
    var s := Run(job, phase, Init(workers, files), steps);
    var w := s.tasks[t].worker;
    assert TokenOk(s, w);
    HoldingAtLeast(s.tasks, {t, u}, w);
  }

  // ----- files

  /** A task that has ended has its files; the map files outlast the reduce phase. */
  ghost predicate FilesInv(job: Job, phase: Phase, s: State) {
    && (phase.ReducePhase? ==> MapsDone(s.files, job))
    && forall t :: 0 <= t < |s.tasks| && s.tasks[t].Finished? ==> TaskDone(job, phase, s.files, t)
  }

  ghost predicate TaskDone(job: Job, phase: Phase, files: Files, t: nat) {
    if phase.MapPhase? then MapDone(files, job, t) else ReduceDone(files, job, t)
  }

  lemma FilesStep(job: Job, phase: Phase, s: State, step: Step)
    requires FilesInv(job, phase, s) && |s.tasks| <= TaskCount(job, phase)
    ensures FilesInv(job, phase, Next(job, phase, s, step))
    ensures |Next(job, phase, s, step).tasks| <= TaskCount(job, phase)
  {
    hide MapsDone, MapDone, ReduceDone, Reduces, MergeName, MapFiles;
    if Enabled(job, phase, s, step) && step.Reply? && step.ran {
      var s', t := Next(job, phase, s, step), step.task;
      if phase.ReducePhase? {
        ReduceTaskDone(s.files, job, t, step.out);
      } else {
        forall u | 0 <= u < |s.tasks| && s'.tasks[u].Finished? ensures MapDone(s'.files, job, u) {
          MapTaskDone(s.files, job, t, u);
        }
      }
    }
  }

  lemma {:induction false} RunFiles(job: Job, phase: Phase, workers: seq<string>, files: Files, steps: seq<Step>)
    requires phase.ReducePhase? ==> MapsDone(files, job)
    ensures var s := Run(job, phase, Init(workers, files), steps);
      FilesInv(job, phase, s) && |s.tasks| <= TaskCount(job, phase)
  {
    if steps != [] {
      RunFiles(job, phase, workers, files, steps[..|steps| - 1]);
      FilesStep(job, phase, Run(job, phase, Init(workers, files), steps[..|steps| - 1]), steps[|steps| - 1]);
    }
  }

  /** When the map phase returns, every map task's files are there. */
  lemma MapPhaseDone(job: Job, workers: seq<string>, files: Files, steps: seq<Step>)
    requires Returned(job, MapPhase, Run(job, MapPhase, Init(workers, files), steps))
    ensures MapsDone(Run(job, MapPhase, Init(workers, files), steps).files, job)
  {
    RunFiles(job, MapPhase, workers, files, steps);
    hide Run;
    var s := Run(job, MapPhase, Init(workers, files), steps);
    forall m | 0 <= m < |job.inputs| ensures MapDone(s.files, job, m) {
      assert TaskDone(job, MapPhase, s.files, m);
    }
  }

  /** When the reduce phase returns, so are every reduce task's. */
  lemma ReducePhaseDone(job: Job, workers: seq<string>, files: Files, steps: seq<Step>)
    requires MapsDone(files, job) && Returned(job, ReducePhase, Run(job, ReducePhase, Init(workers, files), steps))
    ensures var s := Run(job, ReducePhase, Init(workers, files), steps);
      MapsDone(s.files, job) && ReducesDone(s.files, job)
  {
    RunFiles(job, ReducePhase, workers, files, steps);
    hide Run;
    var s := Run(job, ReducePhase, Init(workers, files), steps);
    forall r | 0 <= r < job.nReduce ensures ReduceDone(s.files, job, r) {
      assert TaskDone(job, ReducePhase, s.files, r);
    }
  }

  /** Whatever the workers, failures and interleavings of the two phases, the table
      merged afterwards is the direct group-by. */
  lemma DistributedIsGroupBy(
    job: Job, files: Files, workers1: seq<string>, steps1: seq<Step>, workers2: seq<string>, steps2: seq<Step>)
    requires job.nReduce > 0
    requires Returned(job, MapPhase, Run(job, MapPhase, Init(workers1, files), steps1))
    requires var files1 := Run(job, MapPhase, Init(workers1, files), steps1).files;
      Returned(job, ReducePhase, Run(job, ReducePhase, Init(workers2, files1), steps2))
    ensures var files1 := Run(job, MapPhase, Init(workers1, files), steps1).files;
      var files2 := Run(job, ReducePhase, Init(workers2, files1), steps2).files;
      && HasResults(files2, job, job.nReduce)
      && MergedMap(files2, job, job.nReduce) == GroupBy(Flatten(Emitted(job)), job.reduceF)
  {
    hide Run, MapsDone, ReducesDone, GroupBy, MergedMap;
    MapPhaseDone(job, workers1, files, steps1);
    var files1 := Run(job, MapPhase, Init(workers1, files), steps1).files;
    ReducePhaseDone(job, workers2, files1, steps2);
    MergedIsGroupBy(Run(job, ReducePhase, Init(workers2, files1), steps2).files, job);
  }

  /** After any two ways of running the tasks, the intermediate files are equal and
      the result files hold the same pairs. */
  lemma FilesAgree(job: Job, a: Files, b: Files, m: nat, r: nat)
    requires MapsDone(a, job) && MapsDone(b, job) && ReducesDone(a, job) && ReducesDone(b, job)
    requires m < |job.inputs| && r < job.nReduce
    ensures var name := ReduceName(job.name, m, r); name in a && name in b && a[name] == b[name]
    ensures var name := MergeName(job.name, r); name in a && name in b && multiset(a[name]) == multiset(b[name])
  {
    assert MapDone(a, job, m) && MapDone(b, job, m) && HasBucket(a, job, m, r) && HasBucket(b, job, m, r);
    assert ReduceDone(a, job, r) && ReduceDone(b, job, r);
    hide ReduceName, MergeName, Bucket, Collected;
    var name, input := MergeName(job.name, r), Collected(Emitted(job), job.hash, job.nReduce, r);
    SameReduction(a[name], b[name], input, job.reduceF);
  }

  /** All intermediate files are equal and all result files hold the same pairs. */
  ghost predicate SameFiles(job: Job, a: Files, b: Files) {
    forall m, r :: 0 <= m < |job.inputs| && 0 <= r < job.nReduce ==> SameFor(job, a, b, m, r)
  }

  ghost predicate SameFor(job: Job, a: Files, b: Files, m: nat, r: nat) {
    var given, result := ReduceName(job.name, m, r), MergeName(job.name, r);
    && given in a && given in b && a[given] == b[given]
    && result in a && result in b && multiset(a[result]) == multiset(b[result])
  }

  /** The files of two returned phases agree with those of any other complete run. */
  lemma DistributedFiles(
    job: Job, files: Files, workers1: seq<string>, steps1: seq<Step>, workers2: seq<string>, steps2: seq<Step>,
    other: Files)
    requires MapsDone(other, job) && ReducesDone(other, job)
    requires Returned(job, MapPhase, Run(job, MapPhase, Init(workers1, files), steps1))
    requires var files1 := Run(job, MapPhase, Init(workers1, files), steps1).files;
      Returned(job, ReducePhase, Run(job, ReducePhase, Init(workers2, files1), steps2))
    ensures var files1 := Run(job, MapPhase, Init(workers1, files), steps1).files;
      SameFiles(job, Run(job, ReducePhase, Init(workers2, files1), steps2).files, other)
  {
    hide Run, MapsDone, ReducesDone, Returned;
    MapPhaseDone(job, workers1, files, steps1);
    var files1 := Run(job, MapPhase, Init(workers1, files), steps1).files;
    ReducePhaseDone(job, workers2, files1, steps2);
    var files2 := Run(job, ReducePhase, Init(workers2, files1), steps2).files;
    forall m, r | 0 <= m < |job.inputs| && 0 <= r < job.nReduce ensures SameFor(job, files2, other, m, r) {
      FilesAgree(job, files2, other, m, r);
    }
  }

  /** In particular with those of one sequential pass, on whatever files it starts. */
  method SequentialPass(
    fs: MrMaster.FileSystem, job: Job, ghost files: Files,
    ghost workers1: seq<string>, ghost steps1: seq<Step>, ghost workers2: seq<string>, ghost steps2: seq<Step>)
    requires job.nReduce > 0
    requires Returned(job, MapPhase, Run(job, MapPhase, Init(workers1, files), steps1))
    requires var files1 := Run(job, MapPhase, Init(workers1, files), steps1).files;
      Returned(job, ReducePhase, Run(job, ReducePhase, Init(workers2, files1), steps2))
    modifies fs
    ensures var files1 := Run(job, MapPhase, Init(workers1, files), steps1).files;
      SameFiles(job, Run(job, ReducePhase, Init(workers2, files1), steps2).files, fs.files)
  {
    hide Run, MapsDone, ReducesDone, Returned, SameFiles;
    var ok, lines := MrMaster.Sequential(fs, job);
    DistributedFiles(job, files, workers1, steps1, workers2, steps2, fs.files);
  }

  lemma {:induction false} OnceEach(kvs: seq<KeyValue>, kv: KeyValue)
    requires DistinctKeys(kvs)
    ensures multiset(kvs)[kv] == if kv in kvs then 1 else 0
  {
    if kvs != [] {
      var k := |kvs| - 1;
      OnceEach(kvs[..k], kv);
      assert kvs == kvs[..k] + [kvs[k]];
      assert kv in kvs[..k] ==> kv.key != kvs[k].key;
    }
  }

  lemma SameReduction(out: seq<KeyValue>, out': seq<KeyValue>, input: seq<KeyValue>, reduceF: Reducer)
    requires Reduces(out, input, reduceF) && Reduces(out', input, reduceF)
    ensures multiset(out) == multiset(out')
  {
    forall kv: KeyValue ensures multiset(out)[kv] == multiset(out')[kv] {
      ReducedMember(out, input, reduceF, kv);
      ReducedMember(out', input, reduceF, kv);
      OnceEach(out, kv);
      OnceEach(out', kv);
    }
  }

  lemma ReducedMember(out: seq<KeyValue>, input: seq<KeyValue>, reduceF: Reducer, kv: KeyValue)
    requires Reduces(out, input, reduceF)
    ensures kv in out <==> kv.key in Keys(input) && kv.value == reduceF(kv.key, Values(input, kv.key))
  {
    hide Values;
    if kv.key in Keys(input) {
      assert kv.key in Keys(out);
      var i :| 0 <= i < |out| && out[i].key == kv.key;
    }
    if kv in out {
      var i :| 0 <= i < |out| && out[i] == kv;
      assert out[i].key in Keys(out);
    }
  }

  // ----- when the reduce phase can return

  lemma {:induction false} FewTasks(job: Job, workers: seq<string>, files: Files, steps: seq<Step>)
    ensures |Run(job, ReducePhase, Init(workers, files), steps).tasks| <= |job.inputs|
  {
    hide Runs, Effect;
    if steps != [] {
      FewTasks(job, workers, files, steps[..|steps| - 1]);
      FewTasksStep(job, Run(job, ReducePhase, Init(workers, files), steps[..|steps| - 1]), steps[|steps| - 1]);
    }
  }

  lemma FewTasksStep(job: Job, s: State, step: Step)
    requires |s.tasks| <= |job.inputs|
    ensures |Next(job, ReducePhase, s, step).tasks| <= |job.inputs|
  {
    hide Runs, Effect;
  }

  lemma {:induction false} Reduction(keys: set<string>, input: seq<KeyValue>,
                                     reduceF: Reducer) returns (out: seq<KeyValue>)
    ensures DistinctKeys(out) && Keys(out) == keys
    ensures forall i :: 0 <= i < |out| ==> out[i].value == reduceF(out[i].key, Values(input, out[i].key))
  {
    hide Values;
    if keys == {} {
      out := [];
    } else {
      var key :| key in keys;
      out := Reduction(keys - {key}, input, reduceF);
      var kv := KeyValue(key, reduceF(key, Values(input, key)));
      KeysOneMore(out, kv);
      DistinctOneMore(out, kv);
      out := out + [kv];
    }
  }

  /** The first `k` tasks done one after the other, by one worker. */
  ghost predicate DoneSoFar(job: Job, phase: Phase, s: State, k: nat) {
    && |s.tasks| == k && (phase.ReducePhase? ==> MapsDone(s.files, job)) && s.offers == multiset{"w"}
    && forall t :: 0 <= t < k ==> s.tasks[t].Finished?
  }

  lemma OneMoreStep(job: Job, phase: Phase, s0: State, steps: seq<Step>, step: Step)
    ensures Run(job, phase, s0, steps + [step]) == Next(job, phase, Run(job, phase, s0, steps), step)
  {
    assert (steps + [step])[..|steps|] == steps;
  }

  /** A task can be run, and what it writes then. */
  lemma TaskRuns(job: Job, phase: Phase, files: Files, k: nat) returns (out: seq<KeyValue>)
    requires k < TaskCount(job, phase) && k < |job.inputs| && job.nReduce > 0
    requires phase.ReducePhase? ==> MapsDone(files, job)
    ensures Runs(job, phase, files, k, out)
    ensures phase.ReducePhase? ==> MapsDone(Effect(job, phase, files, k, out), job)
  {
    out := [];
    if phase.ReducePhase? {
      hide MapsDone, Reduces, MergeName, ReduceDone, HasInputs, Inputs, DistinctKeys, Values;
      InputsCollected(files, job, |job.inputs|, k);
      var input := Inputs(files, job, |job.inputs|, k);
      out := Reduction(Keys(input), input, job.reduceF);
      assert Reduces(out, input, job.reduceF) by { IsReduction(out, input, job.reduceF); }
      ReduceTaskDone(files, job, k, out);
    }
  }

  lemma OneMoreTask(job: Job, phase: Phase, s: State, k: nat) returns (steps: (Step, Step, Step))
    requires DoneSoFar(job, phase, s, k) && k < TaskCount(job, phase) <= |job.inputs| && job.nReduce > 0
    ensures var s1 := Next(job, phase, s, steps.0);
      var s2 := Next(job, phase, s1, steps.1);
      DoneSoFar(job, phase, Next(job, phase, s2, steps.2), k + 1)
  {
    var out := TaskRuns(job, phase, s.files, k);
    hide MapsDone, Runs, Effect;
    steps := (Start, Take(k, "w"), Reply(k, true, true, out));
  }

  lemma IsReduction(out: seq<KeyValue>, input: seq<KeyValue>, reduceF: Reducer)
    requires DistinctKeys(out) && Keys(out) == Keys(input)
    requires forall i :: 0 <= i < |out| ==> out[i].value == reduceF(out[i].key, Values(input, out[i].key))
    ensures Reduces(out, input, reduceF)
  {
  }

  /** A worker registers, is announced, and does all tasks. */
  lemma {:induction false} OneByOne(job: Job, phase: Phase, files: Files, k: nat) returns (steps: seq<Step>)
    requires (phase.ReducePhase? ==> MapsDone(files, job)) && k <= TaskCount(job, phase) <= |job.inputs|
    requires k == 0 || job.nReduce > 0
    ensures DoneSoFar(job, phase, Run(job, phase, Init([], files), steps), k)
  {
    var s0 := Init([], files);
    if k == 0 {
      OneMoreStep(job, phase, s0, [], Register("w"));
      OneMoreStep(job, phase, s0, [Register("w")], Forward);
      assert [] + [Register("w")] == [Register("w")];
      steps := [Register("w")] + [Forward];
    } else {
      steps := OneByOne(job, phase, files, k - 1);
      hide DoneSoFar, Run, Next;
      var next := OneMoreTask(job, phase, Run(job, phase, s0, steps), k - 1);
      OneMoreStep(job, phase, s0, steps, next.0);
      OneMoreStep(job, phase, s0, steps + [next.0], next.1);
      OneMoreStep(job, phase, s0, steps + [next.0] + [next.1], next.2);
      steps := steps + [next.0] + [next.1] + [next.2];
    }
  }

  ghost predicate CanReturn(job: Job, phase: Phase, files: Files) {
    exists workers: seq<string>, steps: seq<Step> ::
      Returned(job, phase, Run(job, phase, Init(workers, files), steps))
  }

  /** The reduce phase can return exactly if there are no more reduce tasks than
      input files. */
  lemma ReturnsExactly(job: Job, files: Files)
    requires MapsDone(files, job)
    ensures CanReturn(job, ReducePhase, files) <==> job.nReduce <= |job.inputs|
  {
    if job.nReduce <= |job.inputs| {
      var steps := OneByOne(job, ReducePhase, files, job.nReduce);
      assert Returned(job, ReducePhase, Run(job, ReducePhase, Init([], files), steps));
    }
    if CanReturn(job, ReducePhase, files) {
      var workers: seq<string>, steps: seq<Step> :|
        Returned(job, ReducePhase, Run(job, ReducePhase, Init(workers, files), steps));
      FewTasks(job, workers, files, steps);
    }
  }

  /** The map phase can always return, if there is a reduce task to write for. */
  lemma MapReturns(job: Job, files: Files)
    requires job.nReduce > 0
    ensures CanReturn(job, MapPhase, files)
  {
    var steps := OneByOne(job, MapPhase, files, |job.inputs|);
    assert Returned(job, MapPhase, Run(job, MapPhase, Init([], files), steps));
  }
}
