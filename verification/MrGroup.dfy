/**
 What a MapReduce job computes: the direct group-by of everything the map tasks
 emitted, listed by key, and how it splits over hash buckets.
 */
module MrGroup {

  datatype KeyValue = KeyValue(key: string, value: string)

  type Reducer = (string, seq<string>) -> string
  type Hash = string -> nat

  function Keys(kvs: seq<KeyValue>): set<string> {
    set i | 0 <= i < |kvs| :: kvs[i].key
  }

  /** The values of a key, in order. */
  function Values(kvs: seq<KeyValue>, key: string): seq<string> {
    if kvs == [] then []
    else
      var k := |kvs| - 1;
      Values(kvs[..k], key) + if kvs[k].key == key then [kvs[k].value] else []
  }

  /** All pairs emitted, by map task, then in order of emission. */
  function Flatten(emitted: seq<seq<KeyValue>>): seq<KeyValue> {
    if emitted == [] then [] else Flatten(emitted[..|emitted| - 1]) + emitted[|emitted| - 1]
  }

  /** The reference: each key once, with its values reduced. */
  function GroupBy(all: seq<KeyValue>, reduceF: Reducer): map<string, string> {
    map key | key in Keys(all) :: reduceF(key, Values(all, key))
  }

  /** The reduce task, of `n`, that a key belongs to. */
  function TaskOf(hash: Hash, n: nat, key: string): (r: nat)
    requires n > 0
    ensures r < n
  {
    hash(key) % n
  }

  /** The pairs for reduce task `r` of `n`. */
  function Bucket(kvs: seq<KeyValue>, hash: Hash, n: nat, r: nat): seq<KeyValue>
    requires n > 0
  {
    if kvs == [] then []
    else
      var k := |kvs| - 1;
      Bucket(kvs[..k], hash, n, r) + if TaskOf(hash, n, kvs[k].key) == r then [kvs[k]] else []
  }

  /** What reduce task `r` reads, from all map tasks. */
  function Collected(emitted: seq<seq<KeyValue>>, hash: Hash, n: nat, r: nat): seq<KeyValue>
    requires n > 0
  {
    if emitted == [] then []
    else Collected(emitted[..|emitted| - 1], hash, n, r) + Bucket(emitted[|emitted| - 1], hash, n, r)
  }

  lemma {:induction false} BucketConcat(a: seq<KeyValue>, b: seq<KeyValue>, hash: Hash, n: nat, r: nat)
    requires n > 0
    ensures Bucket(a + b, hash, n, r) == Bucket(a, hash, n, r) + Bucket(b, hash, n, r)
  {
    if b == [] {
      assert a + b == a;
    } else {
      var k := |b| - 1;
      assert (a + b)[..|a + b| - 1] == a + b[..k];
      BucketConcat(a, b[..k], hash, n, r);
    }
  }

  lemma {:induction false} CollectedIsBucket(emitted: seq<seq<KeyValue>>, hash: Hash, n: nat, r: nat)
    requires n > 0
    ensures Collected(emitted, hash, n, r) == Bucket(Flatten(emitted), hash, n, r)
  {
    if emitted != [] {
      var k := |emitted| - 1;
      CollectedIsBucket(emitted[..k], hash, n, r);
      BucketConcat(Flatten(emitted[..k]), emitted[k], hash, n, r);
    }
  }

  /** A bucket has all the values of its own keys, in order, and of no others. */
  lemma {:induction false} BucketValues(kvs: seq<KeyValue>, hash: Hash, n: nat, r: nat, key: string)
    requires n > 0
    ensures Values(Bucket(kvs, hash, n, r), key) == if TaskOf(hash, n, key) == r then Values(kvs, key) else []
    ensures key in Keys(Bucket(kvs, hash, n, r)) <==> key in Keys(kvs) && TaskOf(hash, n, key) == r
  {
    hide TaskOf, Keys;
    if kvs == [] {
      KeysNone();
    } else {
      var k := |kvs| - 1;
      var b := Bucket(kvs[..k], hash, n, r);
      BucketValues(kvs[..k], hash, n, r, key);
      assert kvs[..k] + [kvs[k]] == kvs;
      KeysOneMore(kvs[..k], kvs[k]);
      if TaskOf(hash, n, kvs[k].key) == r {
        ValuesOneMore(b, kvs[k], key);
        KeysOneMore(b, kvs[k]);
      } else {
        assert Bucket(kvs, hash, n, r) == b;
      }
    }
  }

  /** A bucket holds the pairs whose key's hash leaves the task's number. */
  lemma {:induction false} BucketMembers(kvs: seq<KeyValue>, hash: Hash, n: nat, r: nat, kv: KeyValue)
    requires n > 0
    ensures kv in Bucket(kvs, hash, n, r) <==> kv in kvs && hash(kv.key) % n == r
  {
    if kvs != [] {
      var k := |kvs| - 1;
      BucketMembers(kvs[..k], hash, n, r, kv);
      assert kvs == kvs[..k] + [kvs[k]];
    }
  }

  /** How many pairs have the key. */
  function Occurrences(kvs: seq<KeyValue>, key: string): nat {
    if kvs == [] then 0
    else Occurrences(kvs[..|kvs| - 1], key) + if kvs[|kvs| - 1].key == key then 1 else 0
  }

  /** Each pair's value comes after as many values as there are pairs of its key before. */
  lemma {:induction false} ValueAt(kvs: seq<KeyValue>, i: nat)
    requires i < |kvs|
    ensures var key := kvs[i].key;
      && |Values(kvs, key)| == Occurrences(kvs, key) > Occurrences(kvs[..i], key)
      && Values(kvs, key)[Occurrences(kvs[..i], key)] == kvs[i].value
  {
    var k, key := |kvs| - 1, kvs[i].key;
    ValuesCount(kvs[..k], key);
    if i < k {
      ValueAt(kvs[..k], i);
      assert kvs[..k][..i] == kvs[..i];
    }
  }

  lemma {:induction false} ValuesCount(kvs: seq<KeyValue>, key: string)
    ensures |Values(kvs, key)| == Occurrences(kvs, key)
  {
    if kvs != [] {
      ValuesCount(kvs[..|kvs| - 1], key);
    }
  }

  /** What a task emitted comes after everything the tasks before it emitted. */
  lemma {:induction false} FlattenAt(emitted: seq<seq<KeyValue>>, m: nat, i: nat)
    requires m < |emitted| && i < |emitted[m]|
    ensures var before := |Flatten(emitted[..m])|;
      before + |emitted[m]| <= |Flatten(emitted)| && Flatten(emitted)[before + i] == emitted[m][i]
  {
    var k := |emitted| - 1;
    if m < k {
      FlattenAt(emitted[..k], m, i);
      assert emitted[..k][..m] == emitted[..m];
    }
  }

  lemma KeysNone()
    ensures Keys([]) == {}
  {
  }

  lemma ValuesOneMore(kvs: seq<KeyValue>, kv: KeyValue, key: string)
    ensures Values(kvs + [kv], key) == Values(kvs, key) + if kv.key == key then [kv.value] else []
  {
    assert (kvs + [kv])[..|kvs|] == kvs;
  }

  lemma KeysOneMore(kvs: seq<KeyValue>, kv: KeyValue)
    ensures Keys(kvs + [kv]) == Keys(kvs) + {kv.key}
  {
    var both := kvs + [kv];
    assert both[|kvs|] == kv;
    forall key | key in Keys(kvs) ensures key in Keys(both) {
      var i :| 0 <= i < |kvs| && kvs[i].key == key;
      assert both[i].key == key;
    }
  }

  // ----- the output of a reduce task

  ghost predicate DistinctKeys(kvs: seq<KeyValue>) {
    forall i, j :: 0 <= i < j < |kvs| ==> kvs[i].key != kvs[j].key
  }

  lemma DistinctNone()
    ensures DistinctKeys([])
  {
  }

  lemma DistinctOneMore(kvs: seq<KeyValue>, kv: KeyValue)
    requires DistinctKeys(kvs) && kv.key !in Keys(kvs)
    ensures DistinctKeys(kvs + [kv])
  {
  }

  /** `out` lists the groups of `input`, in some order. */
  ghost predicate Reduces(out: seq<KeyValue>, input: seq<KeyValue>, reduceF: Reducer) {
    && DistinctKeys(out) && Keys(out) == Keys(input)
    && forall i :: 0 <= i < |out| ==> out[i].value == reduceF(out[i].key, Values(input, out[i].key))
  }

  /** Later pairs overwrite earlier ones. */
  function Overlay(m: map<string, string>, kvs: seq<KeyValue>): map<string, string> {
    if kvs == [] then m else Overlay(m, kvs[..|kvs| - 1])[kvs[|kvs| - 1].key := kvs[|kvs| - 1].value]
  }

  lemma {:induction false} OverlayReduced(m: map<string, string>, out: seq<KeyValue>, f: string -> string)
    requires forall i :: 0 <= i < |out| ==> out[i].value == f(out[i].key)
    ensures var m' := Overlay(m, out);
      && m'.Keys == m.Keys + Keys(out)
      && forall key :: key in m' ==> m'[key] == if key in Keys(out) then f(key) else m[key]
  {
    hide Keys;
    if out == [] {
      KeysNone();
    } else {
      var k := |out| - 1;
      OverlayReduced(m, out[..k], f);
      assert out == out[..k] + [out[k]];
      KeysOneMore(out[..k], out[k]);
    }
  }

  // ----- the order of keys

  /** Lexicographic order. */
  predicate Less(a: string, b: string) {
    b != [] && (a == [] || a[0] < b[0] || (a[0] == b[0] && Less(a[1..], b[1..])))
  }

  /** A proper prefix, or a smaller character at the first difference. */
  ghost predicate Earlier(a: string, b: string, i: nat) {
    i <= |a| && i < |b| && a[..i] == b[..i] && (i == |a| || a[i] < b[i])
  }

  lemma {:induction false} LessExactly(a: string, b: string)
    ensures Less(a, b) <==> exists i: nat :: Earlier(a, b, i)
  {
    if b == [] {
    } else if a == [] || a[0] != b[0] {
      assert a == [] || a[0] < b[0] ==> Earlier(a, b, 0);
      FirstDiffers(a, b);
    } else {
      LessExactly(a[1..], b[1..]);
      forall i: nat ensures Earlier(a, b, i + 1) <==> Earlier(a[1..], b[1..], i) {
        TailEarlier(a, b, i);
      }
      assert !Earlier(a, b, 0);
      if i: nat :| Earlier(a, b, i) {
        assert Earlier(a[1..], b[1..], i - 1);
      }
    }
  }

  lemma FirstDiffers(a: string, b: string)
    requires b != [] && a != [] ==> a[0] != b[0]
    ensures forall i: nat :: i > 0 ==> !Earlier(a, b, i)
  {
    forall i: nat | i > 0 && i <= |a| && i < |b| ensures a[..i] != b[..i] {
      assert a[..i][0] == a[0] && b[..i][0] == b[0];
    }
  }

  lemma TailEarlier(a: string, b: string, i: nat)
    requires a != [] && b != [] && a[0] == b[0]
    ensures Earlier(a, b, i + 1) <==> Earlier(a[1..], b[1..], i)
  {
    if i + 1 <= |a| && i + 1 <= |b| {
      assert a[..i + 1] == [a[0]] + a[1..][..i] && b[..i + 1] == [b[0]] + b[1..][..i];
      assert a[..i + 1] == b[..i + 1] ==> a[1..][..i] == a[..i + 1][1..] && b[1..][..i] == b[..i + 1][1..];
    }
  }

  lemma {:induction false} LessIrreflexive(a: string)
    ensures !Less(a, a)
  {
    if a != [] {
      LessIrreflexive(a[1..]);
    }
  }

  lemma {:induction false} LessTransitive(a: string, b: string, c: string)
    requires Less(a, b) && Less(b, c)
    ensures Less(a, c)
  {
    if a != [] && a[0] == b[0] == c[0] {
      LessTransitive(a[1..], b[1..], c[1..]);
    }
  }

  lemma {:induction false} LessTotal(a: string, b: string)
    ensures Less(a, b) || a == b || Less(b, a)
  {
    if a != [] && b != [] && a[0] == b[0] {
      LessTotal(a[1..], b[1..]);
      assert a == [a[0]] + a[1..] && b == [b[0]] + b[1..];
    }
  }

  /** `lines` is the table `m`, each key once, in order. */
  ghost predicate Lists(lines: seq<KeyValue>, m: map<string, string>) {
    && (forall i, j :: 0 <= i < j < |lines| ==> Less(lines[i].key, lines[j].key))
    && Keys(lines) == m.Keys
    && forall i :: 0 <= i < |lines| ==> lines[i].key in m && lines[i].value == m[lines[i].key]
  }

  lemma FirstIsLeast(lines: seq<KeyValue>, m: map<string, string>, key: string)
    requires Lists(lines, m) && key in m
    ensures lines != [] && (key == lines[0].key || Less(lines[0].key, key))
  {
    assert key in Keys(lines);
    var i :| 0 <= i < |lines| && lines[i].key == key;
  }

  lemma RestLists(lines: seq<KeyValue>, m: map<string, string>)
    requires Lists(lines, m) && lines != []
    ensures Lists(lines[1..], m - {lines[0].key})
  {
    var rest := lines[1..];
    assert Keys(rest) == Keys(lines) - {lines[0].key} by {
      forall key | key in Keys(lines) && key != lines[0].key ensures key in Keys(rest) {
        var i :| 0 <= i < |lines| && lines[i].key == key;
        assert rest[i - 1].key == key;
      }
      forall key | key in Keys(rest) ensures key in Keys(lines) && key != lines[0].key {
        var i :| 0 <= i < |rest| && rest[i].key == key;
        assert lines[i + 1].key == key;
        LessIrreflexive(key);
      }
    }
  }

  /** A table has one listing. */
  lemma {:induction false} ListingUnique(a: seq<KeyValue>, b: seq<KeyValue>, m: map<string, string>)
    requires Lists(a, m) && Lists(b, m)
    ensures a == b
  {
    if a != [] {
      assert a[0].key in Keys(a);
      FirstIsLeast(b, m, a[0].key);
      assert b[0].key in Keys(b);
      FirstIsLeast(a, m, b[0].key);
      if a[0].key != b[0].key {
        LessTransitive(a[0].key, b[0].key, a[0].key);
        LessIrreflexive(a[0].key);
      }
      RestLists(a, m);
      RestLists(b, m);
      ListingUnique(a[1..], b[1..], m - {a[0].key});
      assert a == [a[0]] + a[1..] && b == [b[0]] + b[1..];
    } else if b != [] {
      assert b[0].key in Keys(b);
      FirstIsLeast(a, m, b[0].key);
    }
  }
}
