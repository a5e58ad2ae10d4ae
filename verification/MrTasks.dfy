/**
 Map tasks, reduce tasks and the merge, over files of key/value pairs
 (mapreduce/common_map.go:75-100, mapreduce/common_reduce.go:61-90,
 mapreduce/master_splitmerge.go:14-51, mapreduce/master.go:60-80, 132-145).
 A file holds what decoding it yields; input files are read only.
 */
module MrTasks {
  import opened MrNames
  import opened MrGroup

  type Files = map<string, seq<KeyValue>>

  datatype Input = Input(file: string, contents: string)

  datatype Job = Job(
    name: string, inputs: seq<Input>, nReduce: nat,
    mapF: (string, string) -> seq<KeyValue>, reduceF: Reducer, hash: Hash)

  /** What each map task emits. */
  function Emitted(job: Job): (r: seq<seq<KeyValue>>)
    ensures |r| == |job.inputs|
    ensures forall m :: 0 <= m < |r| ==> r[m] == job.mapF(job.inputs[m].file, job.inputs[m].contents)
  {
    seq(|job.inputs|, m requires 0 <= m < |job.inputs| => job.mapF(job.inputs[m].file, job.inputs[m].contents))
  }

  /** The files after map task `m` has written its first `upTo` buckets. */
  function MapFiles(files: Files, job: Job, m: nat, upTo: nat): Files
    requires m < |job.inputs| && job.nReduce > 0
  {
    if upTo == 0 then files
    else
      MapFiles(files, job, m, upTo - 1)[ReduceName(job.name, m, upTo - 1) :=
        Bucket(Emitted(job)[m], job.hash, job.nReduce, upTo - 1)]
  }

  ghost predicate HasBucket(files: Files, job: Job, m: nat, r: nat)
    requires m < |job.inputs| && job.nReduce > 0
  {
    var name := ReduceName(job.name, m, r);
    name in files && files[name] == Bucket(Emitted(job)[m], job.hash, job.nReduce, r)
  }

  /** The files of map task `m` are there. */
  ghost predicate MapDone(files: Files, job: Job, m: nat) {
    m < |job.inputs| && job.nReduce > 0 && forall r :: 0 <= r < job.nReduce ==> HasBucket(files, job, m, r)
  }

  ghost predicate MapsDone(files: Files, job: Job) {
    forall m :: 0 <= m < |job.inputs| ==> MapDone(files, job, m)
  }

  /** The file of reduce task `r` is there, and holds its groups. */
  ghost predicate ReduceDone(files: Files, job: Job, r: nat) {
    && r < job.nReduce && MergeName(job.name, r) in files
    && Reduces(files[MergeName(job.name, r)], Collected(Emitted(job), job.hash, job.nReduce, r), job.reduceF)
  }

  ghost predicate ReducesDone(files: Files, job: Job) {
    forall r :: 0 <= r < job.nReduce ==> ReduceDone(files, job, r)
  }

  lemma {:induction false} MapWrites(files: Files, job: Job, m: nat, upTo: nat, r: nat)
    requires m < |job.inputs| && job.nReduce > 0
    ensures r < upTo ==> HasBucket(MapFiles(files, job, m, upTo), job, m, r)
  {
    hide Bucket, ReduceName;
    if upTo > 0 {
      MapWrites(files, job, m, upTo - 1, r);
      ReduceNamesDistinct(job.name, m, r, m, upTo - 1);
    }
  }

  /** A map task writes no other file. */
  lemma {:induction false} MapKeeps(files: Files, job: Job, m: nat, upTo: nat, name: string)
    requires m < |job.inputs| && job.nReduce > 0
    requires forall r :: 0 <= r < upTo ==> name != ReduceName(job.name, m, r)
    ensures var files' := MapFiles(files, job, m, upTo);
      (name in files' <==> name in files) && (name in files ==> files'[name] == files[name])
  {
    hide Bucket, ReduceName;
    if upTo > 0 {
      MapKeeps(files, job, m, upTo - 1, name);
    }
  }

  /** Running a map task, for the first time or again, completes it and leaves the
      completed ones complete. */
  lemma MapTaskDone(files: Files, job: Job, m: nat, other: nat)
    requires m < |job.inputs| && job.nReduce > 0
    ensures var files' := MapFiles(files, job, m, job.nReduce);
      MapDone(files', job, m) && (MapDone(files, job, other) ==> MapDone(files', job, other))
  {
    hide Bucket, ReduceName;
    var files' := MapFiles(files, job, m, job.nReduce);
    forall r | 0 <= r < job.nReduce ensures HasBucket(files', job, m, r) {
      MapWrites(files, job, m, job.nReduce, r);
    }
    if MapDone(files, job, other) && other != m {
      forall r | 0 <= r < job.nReduce ensures HasBucket(files', job, other, r) {
        assert HasBucket(files, job, other, r);
        forall q | 0 <= q < job.nReduce ensures ReduceName(job.name, other, r) != ReduceName(job.name, m, q) {
          ReduceNamesDistinct(job.name, other, r, m, q);
        }
        MapKeeps(files, job, m, job.nReduce, ReduceName(job.name, other, r));
      }
    }
  }

  // ----- what a reduce task reads

  predicate HasInputs(files: Files, job: Job, nMap: nat, r: nat) {
    forall m :: 0 <= m < nMap ==> ReduceName(job.name, m, r) in files
  }

  function Inputs(files: Files, job: Job, nMap: nat, r: nat): seq<KeyValue>
    requires HasInputs(files, job, nMap, r)
  {
    if nMap == 0 then [] else Inputs(files, job, nMap - 1, r) + files[ReduceName(job.name, nMap - 1, r)]
  }

  lemma {:induction false} InputsCollected(files: Files, job: Job, nMap: nat, r: nat)
    requires MapsDone(files, job) && nMap <= |job.inputs| && r < job.nReduce
    ensures HasInputs(files, job, nMap, r)
    ensures Inputs(files, job, nMap, r) == Collected(Emitted(job)[..nMap], job.hash, job.nReduce, r)
  {
    hide Bucket, ReduceName;
    forall m | 0 <= m < nMap ensures ReduceName(job.name, m, r) in files {
      assert MapDone(files, job, m) && HasBucket(files, job, m, r);
    }
    if nMap > 0 {
      InputsCollected(files, job, nMap - 1, r);
      var es := Emitted(job)[..nMap];
      assert es[..nMap - 1] == Emitted(job)[..nMap - 1] && es[nMap - 1] == Emitted(job)[nMap - 1];
      assert MapDone(files, job, nMap - 1) && HasBucket(files, job, nMap - 1, r);
    }
  }

  /** Writing the output of a reduce task over complete map files completes it and
      leaves the other tasks complete. */
  lemma ReduceTaskDone(files: Files, job: Job, r: nat, out: seq<KeyValue>)
    requires MapsDone(files, job) && r < job.nReduce && HasInputs(files, job, |job.inputs|, r)
    requires Reduces(out, Inputs(files, job, |job.inputs|, r), job.reduceF)
    ensures var files' := files[MergeName(job.name, r) := out];
      MapsDone(files', job) && ReduceDone(files', job, r)
      && forall q :: ReduceDone(files, job, q) ==> ReduceDone(files', job, q)
  {
    hide Bucket, Reduces, Collected;
    var files' := files[MergeName(job.name, r) := out];
    InputsCollected(files, job, |job.inputs|, r);
    assert Emitted(job)[..|job.inputs|] == Emitted(job);
    forall m | 0 <= m < |job.inputs| ensures MapDone(files', job, m) {
      assert MapDone(files, job, m);
      forall q | 0 <= q < job.nReduce ensures HasBucket(files', job, m, q) {
        assert HasBucket(files, job, m, q);
        KindsDistinct(job.name, m, q, r);
      }
    }
    forall q | ReduceDone(files, job, q) ensures ReduceDone(files', job, q) {
      MergeNamesDistinct(job.name, q, r);
    }
  }

  // ----- what the merge reads

  predicate HasResults(files: Files, job: Job, n: nat) {
    forall r :: 0 <= r < n ==> MergeName(job.name, r) in files
  }

  function MergedMap(files: Files, job: Job, n: nat): map<string, string>
    requires HasResults(files, job, n)
  {
    if n == 0 then map[] else Overlay(MergedMap(files, job, n - 1), files[MergeName(job.name, n - 1)])
  }

  lemma ReducedValues(out: seq<KeyValue>, job: Job, r: nat)
    requires r < job.nReduce && Reduces(out, Collected(Emitted(job), job.hash, job.nReduce, r), job.reduceF)
    ensures var all := Flatten(Emitted(job));
      && (forall key :: key in Keys(out) <==> key in Keys(all) && TaskOf(job.hash, job.nReduce, key) == r)
      && forall i :: 0 <= i < |out| ==> out[i].value == job.reduceF(out[i].key, Values(all, out[i].key))
  {
    hide Bucket, Collected, TaskOf, Values, Flatten;
    var all := Flatten(Emitted(job));
    CollectedIsBucket(Emitted(job), job.hash, job.nReduce, r);
    forall key ensures key in Keys(out) <==> key in Keys(all) && TaskOf(job.hash, job.nReduce, key) == r {
      BucketValues(all, job.hash, job.nReduce, r, key);
    }
    forall i | 0 <= i < |out| ensures out[i].value == job.reduceF(out[i].key, Values(all, out[i].key)) {
      assert out[i].key in Keys(out);
      BucketValues(all, job.hash, job.nReduce, r, out[i].key);
    }
  }

  /** Merging the first `n` results gives the groups whose keys belong to them. */
  lemma {:induction false} MergedSoFar(files: Files, job: Job, n: nat)
    requires ReducesDone(files, job) && n <= job.nReduce
    ensures HasResults(files, job, n)
    ensures var m, all := MergedMap(files, job, n), Flatten(Emitted(job));
      forall key :: (key in m <==> key in Keys(all) && job.nReduce > 0 && TaskOf(job.hash, job.nReduce, key) < n)
                    && (key in m ==> m[key] == job.reduceF(key, Values(all, key)))
  {
    forall r | 0 <= r < n ensures MergeName(job.name, r) in files {
      assert ReduceDone(files, job, r);
    }
    if n > 0 {
      MergedSoFar(files, job, n - 1);
      assert ReduceDone(files, job, n - 1);
      hide Values, Flatten, TaskOf, Keys, Reduces, Collected, Overlay, MergeName;
      var out, all := files[MergeName(job.name, n - 1)], Flatten(Emitted(job));
      ReducedValues(out, job, n - 1);
      OverlayReduced(MergedMap(files, job, n - 1), out, key => job.reduceF(key, Values(all, key)));
    }
  }

  /** The merged table is the direct group-by, whatever the number of reduce tasks
      and the hash. */
  lemma MergedIsGroupBy(files: Files, job: Job)
    requires ReducesDone(files, job) && job.nReduce > 0
    ensures HasResults(files, job, job.nReduce)
    ensures MergedMap(files, job, job.nReduce) == GroupBy(Flatten(Emitted(job)), job.reduceF)
  {
    MergedSoFar(files, job, job.nReduce);
  }
}
