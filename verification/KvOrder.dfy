/**
 When a history of concurrent requests is linearizable for the checker's key/value
 model: each write has its place in a log, each read comes right after the prefix it
 has read, and the places respect real time (kvraft/server.go:95-106, 176-186,
 linearizability/models.go:34-48).
 */
module KvOrder {
  import opened Histories
  import opened KvLocality
  import opened KvStore
  import opened KvClerks

  predicate IsWrite(op: Op) { op.name == "Put" || op.name == "Append" }

  predicate Known(op: Op) { op.name == "Get" || IsWrite(op) }

  /** The request as the checker's input. */
  function InputOf(op: Op): KvValue {
    KvInput(if op.name == "Get" then 0 else if op.name == "Put" then 1 else 2, op.key, op.value)
  }

  /** The data after the first `k` entries, each request applied once. */
  function Data(log: seq<Op>, k: nat): map<string, string>
    requires k <= |log|
  {
    RememberAll(log[..k]).0
  }

  /** Entry number `f`, from 1, is the first occurrence of a write. */
  ghost predicate FirstWrite(log: seq<Op>, f: nat) {
    1 <= f <= |log| && IsWrite(log[f - 1]) && !Occurs(log[..f - 1], log[f - 1].client, log[f - 1].request)
  }

  /** A write takes effect at an entry of the log; a read, after some entries. */
  datatype Place = AtWrite(f: nat) | AfterRead(p: nat)

  function Rank(a: Place): nat {
    match a
    case AtWrite(f) => 2 * f
    case AfterRead(p) => 2 * p + 1
  }

  ghost predicate PlaceOk(log: seq<Op>, h: KvOp, a: Place) {
    match a
    case AtWrite(f) => FirstWrite(log, f) && h.input == InputOf(log[f - 1]) && h.output.KvOutput?
    case AfterRead(p) =>
      && p <= |log| && h.input.KvInput? && h.input.op == 0
      && h.output == KvOutput(Lookup(Data(log, p), h.input.key))
  }

  ghost predicate WritePlaced(at: seq<Place>, f: nat) {
    exists i :: 0 <= i < |at| && at[i] == AtWrite(f)
  }

  /** Every operation has a place; every write of the log is placed once; places
      respect real time. */
  ghost predicate Schedule(log: seq<Op>, h: seq<KvOp>, at: seq<Place>) {
    && |at| == |h|
    && (forall i :: 0 <= i < |h| ==> PlaceOk(log, h[i], at[i]))
    && (forall i, j :: 0 <= i < |h| && 0 <= j < |h| && Precedes(h[i], h[j]) ==> Rank(at[i]) < Rank(at[j]))
    && (forall i, j :: 0 <= i < |h| && 0 <= j < |h| && at[i].AtWrite? && at[i] == at[j] ==> i == j)
    && (forall f: nat :: FirstWrite(log, f) ==> WritePlaced(at, f))
  }

  ghost predicate SameStore(a: map<string, string>, b: map<string, string>) {
    forall key :: Lookup(a, key) == Lookup(b, key)
  }

  /** Done are the operations placed before rank `r`, and maybe some of rank `r`. */
  ghost predicate DoneTo(at: seq<Place>, done: set<nat>, r: nat) {
    && (forall i: nat :: i < |at| && Rank(at[i]) < r ==> i in done)
    && (forall i: nat :: i < |at| && i in done ==> Rank(at[i]) <= r)
  }

  lemma NextMayGo(log: seq<Op>, h: seq<KvOp>, at: seq<Place>, done: set<nat>, i: nat)
    requires Schedule(log, h, at) && i < |h| && i !in done && DoneTo(at, done, Rank(at[i]))
    ensures MayGoFirst(h, done, i)
  {
  }

  lemma ReadStep(log: seq<Op>, h: KvOp, p: nat, store: map<string, string>)
    requires PlaceOk(log, h, AfterRead(p)) && SameStore(store, Data(log, p))
    ensures var (ok, store') := StepOp(StoreModel(), store, h); ok && SameStore(store', Data(log, p))
  {
    hide Data;
    var store' := StepOp(StoreModel(), store, h).1;
    forall key ensures Lookup(store', key) == Lookup(Data(log, p), key) {
      assert Lookup(store, key) == Lookup(Data(log, p), key);
    }
  }

  lemma DataAfterWrite(log: seq<Op>, f: nat)
    requires FirstWrite(log, f)
    ensures Data(log, f) == Execute(Data(log, f - 1), log[f - 1])
  {
    assert log[..f][..f - 1] == log[..f - 1];
    SeenOccurs(log[..f - 1], log[f - 1].client, log[f - 1].request);
  }

  /** Entries that are no first occurrence of a write leave the data as it is. */
  lemma DataKept(log: seq<Op>, f: nat)
    requires 1 <= f <= |log| && !FirstWrite(log, f)
    ensures Data(log, f) == Data(log, f - 1)
  {
    assert log[..f][..f - 1] == log[..f - 1];
    SeenOccurs(log[..f - 1], log[f - 1].client, log[f - 1].request);
  }

  lemma WriteStep(log: seq<Op>, h: KvOp, f: nat, store: map<string, string>)
    requires PlaceOk(log, h, AtWrite(f)) && SameStore(store, Data(log, f - 1))
    ensures var (ok, store') := StepOp(StoreModel(), store, h); ok && SameStore(store', Data(log, f))
  {
    DataAfterWrite(log, f);
    hide Data, FirstWrite;
    var store' := StepOp(StoreModel(), store, h).1;
    assert Lookup(store, log[f - 1].key) == Lookup(Data(log, f - 1), log[f - 1].key);
    forall key ensures Lookup(store', key) == Lookup(Data(log, f), key) {
      assert Lookup(store, key) == Lookup(Data(log, f - 1), key);
    }
  }

  /** From here on: the reads after `p` entries, then the entry after them. */
  lemma {:induction false} FinishReads(log: seq<Op>, h: seq<KvOp>, at: seq<Place>, p: nat, done: set<nat>,
                                       store: map<string, string>)
    requires Schedule(log, h, at) && p <= |log| && DoneTo(at, done, 2 * p + 1) && SameStore(store, Data(log, p))
    ensures Completable(StoreModel(), h, done, store)
    decreases |log| - p, 1, Remaining(h, done)
  {
    hide Completable, Data, SameStore, StepOp, StoreModel, PlaceOk;
    if i: nat :| i < |h| && at[i] == AfterRead(p) && i !in done {
      assert PlaceOk(log, h[i], at[i]);
      NextMayGo(log, h, at, done, i);
      ReadStep(log, h[i], p, store);
      assert i in Remaining(h, done) && Remaining(h, done + {i}) == Remaining(h, done) - {i};
      FinishReads(log, h, at, p, done + {i}, StepOp(StoreModel(), store, h[i]).1);
      CompletableCons(StoreModel(), h, done, store, i);
    } else {
      assert DoneTo(at, done, 2 * p + 2) by { ReadsDone(at, done, p, |h|); }
      FinishWrites(log, h, at, p + 1, done, store);
    }
  }

  lemma ReadsDone(at: seq<Place>, done: set<nat>, p: nat, n: nat)
    requires n == |at| && DoneTo(at, done, 2 * p + 1) && forall i: nat :: i < n && at[i] == AfterRead(p) ==> i in done
    ensures DoneTo(at, done, 2 * p + 2)
    ensures forall i: nat :: i < n && i in done ==> Rank(at[i]) < 2 * p + 2
  {
    forall i: nat | i < n && Rank(at[i]) == 2 * p + 1 ensures at[i] == AfterRead(p) {
    }
  }

  lemma {:induction false} FinishWrites(log: seq<Op>, h: seq<KvOp>, at: seq<Place>, f: nat, done: set<nat>,
                                        store: map<string, string>)
    requires Schedule(log, h, at) && 1 <= f <= |log| + 1 && SameStore(store, Data(log, f - 1))
    requires DoneTo(at, done, 2 * f) && forall i: nat :: i < |at| && i in done ==> Rank(at[i]) < 2 * f
    ensures Completable(StoreModel(), h, done, store)
    decreases |log| + 1 - f, 0, Remaining(h, done)
  {
    hide Completable, Data, SameStore, StepOp, StoreModel;
    if f == |log| + 1 {
      forall i: nat | i < |h| ensures i in done {
        assert PlaceOk(log, h[i], at[i]);
      }
      CompletableAll(StoreModel(), h, done, store);
    } else if i: nat :| i < |h| && at[i] == AtWrite(f) {
      assert PlaceOk(log, h[i], at[i]);
      hide PlaceOk, FirstWrite;
      NextMayGo(log, h, at, done, i);
      WriteStep(log, h[i], f, store);
      WriteDone(at, done, f, i);
      FinishReads(log, h, at, f, done + {i}, StepOp(StoreModel(), store, h[i]).1);
      CompletableCons(StoreModel(), h, done, store, i);
    } else {
      assert !WritePlaced(at, f);
      DataKept(log, f);
      hide PlaceOk, FirstWrite;
      NoWriteDone(at, done, f);
      FinishReads(log, h, at, f, done, store);
    }
  }

  lemma WriteDone(at: seq<Place>, done: set<nat>, f: nat, i: nat)
    requires DoneTo(at, done, 2 * f) && i < |at| && at[i] == AtWrite(f)
    requires forall j: nat :: j < |at| && at[j] == at[i] ==> j == i
    ensures DoneTo(at, done + {i}, 2 * f + 1)
  {
    forall j: nat | j < |at| && Rank(at[j]) == 2 * f ensures j == i {
      assert at[j] == AtWrite(f);
    }
  }

  lemma NoWriteDone(at: seq<Place>, done: set<nat>, f: nat)
    requires DoneTo(at, done, 2 * f) && forall j: nat :: j < |at| ==> at[j] != AtWrite(f)
    ensures DoneTo(at, done, 2 * f + 1)
  {
    forall j: nat | j < |at| ensures Rank(at[j]) != 2 * f {
    }
  }

  /** A history with a schedule is linearizable against the whole store. */
  lemma ScheduleLinearizes(log: seq<Op>, h: seq<KvOp>, at: seq<Place>)
    requires Schedule(log, h, at)
    ensures Linearizable(StoreModel(), h)
  {
    forall i: nat | i < |h| ensures Rank(at[i]) >= 1 {
      assert PlaceOk(log, h[i], at[i]);
    }
    hide PlaceOk, Completable, Schedule;
    assert log[..0] == [];
    FinishReads(log, h, at, 0, {}, map[]);
  }
}
