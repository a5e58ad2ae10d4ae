/**
 The tasks as they run on a file system, and a job run task by task
 (mapreduce/common_map.go:75-100, mapreduce/common_reduce.go:61-90,
 mapreduce/master_splitmerge.go:14-51, mapreduce/master.go:60-80, 132-145).
 */
module MrMaster {
  import opened MrNames
  import opened MrGroup
  import opened MrTasks

  /** The job's own files, by name. */
  class FileSystem {
    var files: Files

    constructor (files: Files)
      ensures this.files == files
    {
      this.files := files;
    }
  }

  // ----- a map task

  /** Sort pairs into one bucket per reduce task. */
  method Partition(kvs: seq<KeyValue>, hash: Hash, nReduce: nat) returns (tasks: array<seq<KeyValue>>)
    requires nReduce > 0
    ensures tasks.Length == nReduce && fresh(tasks)
    ensures forall r :: 0 <= r < nReduce ==> tasks[r] == Bucket(kvs, hash, nReduce, r)
  {
    hide TaskOf;
    tasks := new seq<KeyValue>[nReduce](_ => []);
    for i := 0 to |kvs|
      invariant forall r :: 0 <= r < nReduce ==> tasks[r] == Bucket(kvs[..i], hash, nReduce, r)
    {
      var taskNo := TaskOf(hash, nReduce, kvs[i].key);
      tasks[taskNo] := tasks[taskNo] + [kvs[i]];
      assert kvs[..i + 1][..i] == kvs[..i];
    }
    assert kvs[..|kvs|] == kvs;
  }

  method DoMap(fs: FileSystem, job: Job, mapTask: nat)
    requires mapTask < |job.inputs| && job.nReduce > 0
    modifies fs
    ensures fs.files == MapFiles(old(fs.files), job, mapTask, job.nReduce)
  {
    hide Bucket, ReduceName;
    var keyValues := job.mapF(job.inputs[mapTask].file, job.inputs[mapTask].contents);
    var tasks := Partition(keyValues, job.hash, job.nReduce);
    for i := 0 to job.nReduce
      modifies fs
      invariant fs.files == MapFiles(old(fs.files), job, mapTask, i)
    {
      fs.files := fs.files[ReduceName(job.name, mapTask, i) := tasks[i]];
    }
  }

  // ----- a reduce task

  /** `grouped` holds the values of every key read so far. */
  ghost predicate Groups(grouped: map<string, seq<string>>, read: seq<KeyValue>) {
    grouped.Keys == Keys(read) && forall key :: key in grouped ==> grouped[key] == Values(read, key)
  }

  lemma GroupOneMore(grouped: map<string, seq<string>>, read: seq<KeyValue>, kv: KeyValue)
    requires Groups(grouped, read)
    ensures Groups(grouped[kv.key := (if kv.key in grouped then grouped[kv.key] else []) + [kv.value]], read + [kv])
  {
    hide Keys, Values;
    KeysOneMore(read, kv);
    if kv.key !in grouped {
      NoValues(read, kv.key);
    }
    forall key ensures Values(read + [kv], key) == Values(read, key) + if kv.key == key then [kv.value] else [] {
      ValuesOneMore(read, kv, key);
    }
  }

  lemma {:induction false} NoValues(kvs: seq<KeyValue>, key: string)
    requires key !in Keys(kvs)
    ensures Values(kvs, key) == []
  {
    if kvs != [] {
      var k := |kvs| - 1;
      assert kvs == kvs[..k] + [kvs[k]];
      KeysOneMore(kvs[..k], kvs[k]);
      NoValues(kvs[..k], key);
    }
  }

  /** Read one intermediate file into the groups. */
  method ReadFile(grouped: map<string, seq<string>>, file: seq<KeyValue>, ghost read: seq<KeyValue>)
    returns (r: map<string, seq<string>>)
    requires Groups(grouped, read)
    ensures Groups(r, read + file)
  {
    r := grouped;
    assert read + file[..0] == read;
    for i := 0 to |file|
      invariant Groups(r, read + file[..i])
    {
      var kv := file[i];
      GroupOneMore(r, read + file[..i], kv);
      r := r[kv.key := (if kv.key in r then r[kv.key] else []) + [kv.value]];
      assert read + file[..i + 1] == read + file[..i] + [kv];
    }
    assert file[..|file|] == file;
  }

  /** List the reduced groups, in any order. */
  method ReduceGroups(grouped: map<string, seq<string>>, reduceF: Reducer,
                      ghost input: seq<KeyValue>) returns (out: seq<KeyValue>)
    requires Groups(grouped, input)
    ensures Reduces(out, input, reduceF)
  {
    hide Values, DistinctKeys, Keys;
    out := [];
    var left := grouped.Keys;
    assert DistinctKeys(out) && Keys(out) == {} by { KeysNone(); DistinctNone(); }
    while left != {}
      invariant left <= grouped.Keys && Keys(out) == grouped.Keys - left && DistinctKeys(out)
      invariant forall i :: 0 <= i < |out| ==> out[i].value == reduceF(out[i].key, Values(input, out[i].key))
      decreases |left|
    {
      var key :| key in left;
      var kv := KeyValue(key, reduceF(key, grouped[key]));
      KeysOneMore(out, kv);
      DistinctOneMore(out, kv);
      out := out + [kv];
      left := left - {key};
    }
  }

  /** It stops without writing anything when an intermediate file is missing. */
  method DoReduce(fs: FileSystem, job: Job, reduceTask: nat, outFile: string, nMap: nat) returns (ok: bool)
    modifies fs
    ensures ok == HasInputs(old(fs.files), job, nMap, reduceTask)
    ensures !ok ==> fs.files == old(fs.files)
    ensures ok ==> outFile in fs.files && fs.files == old(fs.files)[outFile := fs.files[outFile]]
    ensures ok ==> Reduces(fs.files[outFile], Inputs(old(fs.files), job, nMap, reduceTask), job.reduceF)
  {
    hide Reduces, ReduceName, Groups;
    var grouped: map<string, seq<string>> := map[];
    assert Groups(grouped, []) by { NoGroups(); }
    for m := 0 to nMap
      invariant fs.files == old(fs.files) && HasInputs(fs.files, job, m, reduceTask)
      invariant Groups(grouped, Inputs(fs.files, job, m, reduceTask))
    {
      var name := ReduceName(job.name, m, reduceTask);
      if name !in fs.files {
        return false;
      }
      grouped := ReadFile(grouped, fs.files[name], Inputs(fs.files, job, m, reduceTask));
    }
    var out := ReduceGroups(grouped, job.reduceF, Inputs(fs.files, job, nMap, reduceTask));
    fs.files := fs.files[outFile := out];
    return true;
  }

  lemma NoGroups()
    ensures Groups(map[], [])
  {
  }

  // ----- the merge

  predicate Sorted(keys: seq<string>) {
    forall i, j :: 0 <= i < j < |keys| ==> Less(keys[i], keys[j])
  }

  /** Put a new key in its place. */
  method Insert(keys: seq<string>, key: string) returns (r: seq<string>)
    requires Sorted(keys) && key !in keys
    ensures Sorted(r) && multiset(r) == multiset(keys) + multiset{key}
  {
    hide Less;
    var i := |keys|;
    while i > 0 && !Less(keys[i - 1], key)
      invariant 0 <= i <= |keys| && forall j :: i <= j < |keys| ==> Less(key, keys[j])
    {
      LessTotal(keys[i - 1], key);
      i := i - 1;
    }
    r := keys[..i] + [key] + keys[i..];
    InsertSorted(keys, key, i);
    assert keys == keys[..i] + keys[i..];
  }

  lemma InsertSorted(keys: seq<string>, key: string, i: nat)
    requires Sorted(keys) && i <= |keys| && (i > 0 ==> Less(keys[i - 1], key))
    requires forall j :: i <= j < |keys| ==> Less(key, keys[j])
    ensures Sorted(keys[..i] + [key] + keys[i..])
  {
    hide Less;
    forall j | 0 <= j < i ensures Less(keys[j], key) {
      if j < i - 1 {
        LessTransitive(keys[j], keys[i - 1], key);
      }
    }
  }

  method Sort(keys: seq<string>) returns (r: seq<string>)
    requires forall i, j :: 0 <= i < j < |keys| ==> keys[i] != keys[j]
    ensures Sorted(r) && multiset(r) == multiset(keys)
  {
    r := [];
    for i := 0 to |keys|
      invariant Sorted(r) && multiset(r) == multiset(keys[..i])
    {
      assert keys[i] !in keys[..i];
      assert keys[i] !in multiset(r);
      r := Insert(r, keys[i]);
      assert keys[..i + 1] == keys[..i] + [keys[i]];
    }
    assert keys[..|keys|] == keys;
  }

  /** The keys of a table, in any order. */
  method KeysOf(m: map<string, string>) returns (keys: seq<string>)
    ensures forall i, j :: 0 <= i < j < |keys| ==> keys[i] != keys[j]
    ensures forall key :: key in keys <==> key in m
  {
    keys := [];
    var left := m.Keys;
    while left != {}
      invariant left <= m.Keys
      invariant forall i, j :: 0 <= i < j < |keys| ==> keys[i] != keys[j]
      invariant forall key :: key in keys <==> key in m && key !in left
      decreases |left|
    {
      var key :| key in left;
      keys := keys + [key];
      left := left - {key};
    }
  }

  /** Read one result file into the table. */
  method Overwrite(m: map<string, string>, file: seq<KeyValue>) returns (r: map<string, string>)
    ensures r == Overlay(m, file)
  {
    r := m;
    for i := 0 to |file|
      invariant r == Overlay(m, file[..i])
    {
      r := r[file[i].key := file[i].value];
      assert file[..i + 1][..i] == file[..i];
    }
    assert file[..|file|] == file;
  }

  method SortedLines(kvs: map<string, string>) returns (lines: seq<KeyValue>)
    ensures Lists(lines, kvs)
  {
    var found := KeysOf(kvs);
    var keys := Sort(found);
    SameMembers(keys, found);
    hide Less;
    lines := [];
    for i := 0 to |keys|
      invariant |lines| == i
      invariant forall j :: 0 <= j < i ==> keys[j] in kvs && lines[j] == KeyValue(keys[j], kvs[keys[j]])
    {
      assert keys[i] in keys;
      lines := lines + [KeyValue(keys[i], kvs[keys[i]])];
    }
    LinesList(keys, kvs, lines);
  }

  lemma LinesList(keys: seq<string>, kvs: map<string, string>, lines: seq<KeyValue>)
    requires Sorted(keys) && (forall key :: key in keys <==> key in kvs) && |lines| == |keys|
    requires forall j :: 0 <= j < |keys| ==> keys[j] in kvs && lines[j] == KeyValue(keys[j], kvs[keys[j]])
    ensures Lists(lines, kvs)
  {
    forall key | key in kvs ensures key in Keys(lines) {
      var i :| 0 <= i < |keys| && keys[i] == key;
      assert lines[i].key == key;
    }
  }

  lemma SameMembers(a: seq<string>, b: seq<string>)
    requires multiset(a) == multiset(b)
    ensures forall key :: key in a <==> key in b
  {
    forall key ensures key in a <==> key in b {
      assert key in a <==> key in multiset(a);
      assert key in b <==> key in multiset(b);
    }
  }

  /** It fails when a result file is missing. */
  method Merge(fs: FileSystem, job: Job) returns (ok: bool, lines: seq<KeyValue>)
    ensures ok == HasResults(fs.files, job, job.nReduce)
    ensures ok ==> Lists(lines, MergedMap(fs.files, job, job.nReduce))
  {
    hide Lists, MergeName, Overlay;
    var kvs: map<string, string> := map[];
    for i := 0 to job.nReduce
      invariant HasResults(fs.files, job, i) && kvs == MergedMap(fs.files, job, i)
    {
      var name := MergeName(job.name, i);
      if name !in fs.files {
        return false, [];
      }
      kvs := Overwrite(kvs, fs.files[name]);
    }
    lines := SortedLines(kvs);
    ok := true;
  }

  // ----- a whole job

  method MapPhase(fs: FileSystem, job: Job)
    requires job.nReduce > 0
    modifies fs
    ensures MapsDone(fs.files, job)
  {
    hide MapDone;
    for i := 0 to |job.inputs|
      invariant forall m :: 0 <= m < i ==> MapDone(fs.files, job, m)
    {
      ghost var before := fs.files;
      DoMap(fs, job, i);
      MapTaskDone(before, job, i, i);
      forall m | 0 <= m < i ensures MapDone(fs.files, job, m) {
        MapTaskDone(before, job, i, m);
      }
    }
  }

  method ReducePhase(fs: FileSystem, job: Job)
    requires job.nReduce > 0 && MapsDone(fs.files, job)
    modifies fs
    ensures MapsDone(fs.files, job) && ReducesDone(fs.files, job)
  {
    hide MapsDone, ReduceDone, Reduces, MergeName;
    for i := 0 to job.nReduce
      invariant MapsDone(fs.files, job) && forall r :: 0 <= r < i ==> ReduceDone(fs.files, job, r)
    {
      ghost var before := fs.files;
      InputsCollected(before, job, |job.inputs|, i);
      var ok := DoReduce(fs, job, i, MergeName(job.name, i), |job.inputs|);
      ReduceTaskDone(before, job, i, fs.files[MergeName(job.name, i)]);
    }
  }

  /** A job run task by task lists the direct group-by of what was emitted. */
  method Sequential(fs: FileSystem, job: Job) returns (ok: bool, lines: seq<KeyValue>)
    requires job.nReduce > 0
    modifies fs
    ensures MapsDone(fs.files, job) && ReducesDone(fs.files, job)
    ensures ok && Lists(lines, GroupBy(Flatten(Emitted(job)), job.reduceF))
  {
    hide ReducesDone, MapsDone, Lists, GroupBy;
    MapPhase(fs, job);
    ReducePhase(fs, job);
    MergedIsGroupBy(fs.files, job);
    ok, lines := Merge(fs, job);
  }

  /** Two jobs that emit the same pairs and reduce alike have the same output,
      whatever their numbers of reduce tasks and hashes. */
  lemma OutputIndependent(job: Job, job': Job, lines: seq<KeyValue>, lines': seq<KeyValue>)
    requires Flatten(Emitted(job)) == Flatten(Emitted(job')) && job.reduceF == job'.reduceF
    requires Lists(lines, GroupBy(Flatten(Emitted(job)), job.reduceF))
    requires Lists(lines', GroupBy(Flatten(Emitted(job')), job'.reduceF))
    ensures lines == lines'
  {
    ListingUnique(lines, lines', GroupBy(Flatten(Emitted(job)), job.reduceF));
  }
}
