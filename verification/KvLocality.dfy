/**
 The key-value model (linearizability/models.go) and why checking it one key at
 a time decides the whole history.
 */
module KvLocality {
  import opened Histories

  datatype KvValue =
    | KvInput(op: nat, key: string, value: string)  // op 0 is get, 1 is put, any other append
    | KvOutput(result: string)

  type KvOp = Operation<KvValue>

  /** Inputs and outputs have the types the model's `Step` expects. */
  ghost predicate Typed(ops: seq<KvOp>) {
    forall i :: 0 <= i < |ops| ==> ops[i].input.KvInput? && ops[i].output.KvOutput?
  }

  /** One key's value: a get returns it, a put replaces it, an append extends it. */
  function KvStep(state: string, input: KvValue, output: KvValue): (bool, string) {
    if !input.KvInput? || !output.KvOutput? then (false, state)
    else if input.op == 0 then (output.result == state, state)
    else if input.op == 1 then (true, input.value)
    else (true, state + input.value)
  }

  function KvModel(): Model<string, KvValue> {
    Model("", KvStep)
  }

  /** The whole store: a missing key reads as the empty string. */
  function Lookup(store: map<string, string>, key: string): string {
    if key in store then store[key] else ""
  }

  function StoreStep(store: map<string, string>, input: KvValue, output: KvValue): (bool, map<string, string>) {
    if !input.KvInput? then (false, store)
    else
      var (ok, v) := KvStep(Lookup(store, input.key), input, output);
      (ok, store[input.key := v])
  }

  function StoreModel(): Model<map<string, string>, KvValue> {
    Model(map[], StoreStep)
  }

  /** The operations on other keys than `key`. */
  ghost function Others(ops: seq<KvOp>, key: string): set<nat>
    requires Typed(ops)
  {
    set i: nat | i < |ops| && ops[i].input.key != key
  }

  /** The history of `key`, past `done`, can be linearized from the store. */
  ghost predicate KeyCompletable(ops: seq<KvOp>, done: set<nat>, store: map<string, string>, key: string)
    requires Typed(ops)
  {
    Completable(KvModel(), ops, done + Others(ops, key), Lookup(store, key))
  }

  ghost predicate KeysCompletable(ops: seq<KvOp>, done: set<nat>, store: map<string, string>)
    requires Typed(ops)
  {
    forall key :: KeyCompletable(ops, done, store, key)
  }

  ghost function Remaining<V>(ops: seq<Operation<V>>, done: set<nat>): set<nat> {
    set i: nat | i < |ops| && i !in done
  }

  /** Some remaining operation returns first. */
  lemma {:induction false} EarliestReturn<V>(ops: seq<Operation<V>>, rest: set<nat>) returns (o: nat)
    requires rest != {} && forall i :: i in rest ==> i < |ops|
    ensures o in rest && forall j :: j in rest ==> ops[o].ret <= ops[j].ret
    decreases rest
  {
    o :| o in rest;
    if rest != {o} {
      var p := EarliestReturn(ops, rest - {o});
      if ops[p].ret < ops[o].ret { o := p; }
    }
  }

  /** The next operation of the key whose operation returns earliest may go first
      among all keys. */
  lemma NextOfEarliest(ops: seq<KvOp>, done: set<nat>, store: map<string, string>) returns (id: nat)
    requires Timed(ops) && Typed(ops) && KeysCompletable(ops, done, store)
    requires Remaining(ops, done) != {}
    ensures MayGoFirst(ops, done, id)
    ensures var key := ops[id].input.key; Extends(KvModel(), ops, done + Others(ops, key), Lookup(store, key), id)
  {
    var o := EarliestReturn(ops, Remaining(ops, done));
    var key := ops[o].input.key;
    var rest := done + Others(ops, key);
    assert o !in rest && KeyCompletable(ops, done, store, key);
    id := CompletableHead(KvModel(), ops, rest, Lookup(store, key));
    assert !Precedes(ops[o], ops[id]);
    forall j: nat | j < |ops| && j !in done ensures !Precedes(ops[j], ops[id]) {
      assert j in Remaining(ops, done);
    }
  }

  lemma AfterOne(ops: seq<KvOp>, done: set<nat>, store: map<string, string>, id: nat)
    requires Typed(ops) && KeysCompletable(ops, done, store) && id < |ops| && id !in done
    requires var key := ops[id].input.key; Extends(KvModel(), ops, done + Others(ops, key), Lookup(store, key), id)
    ensures StepOp(StoreModel(), store, ops[id]).0
    ensures KeysCompletable(ops, done + {id}, StepOp(StoreModel(), store, ops[id]).1)
  {
    var store' := StepOp(StoreModel(), store, ops[id]).1;
    forall key ensures KeyCompletable(ops, done + {id}, store', key) {
      assert KeyCompletable(ops, done, store, key);
      if key == ops[id].input.key {
        assert done + {id} + Others(ops, key) == done + Others(ops, key) + {id};
      } else {
        assert done + {id} + Others(ops, key) == done + Others(ops, key);
      }
    }
  }

  /** Orders of the single keys merge into one order of the whole history. */
  lemma {:induction false} KeysMerge(ops: seq<KvOp>, done: set<nat>, store: map<string, string>)
    requires Timed(ops) && Typed(ops) && KeysCompletable(ops, done, store)
    ensures Completable(StoreModel(), ops, done, store)
    decreases Remaining(ops, done)
  {
    if Remaining(ops, done) == {} {
      forall i: nat | i < |ops| ensures i in done {
        assert i !in Remaining(ops, done);
      }
      CompletableAll(StoreModel(), ops, done, store);
    } else {
      var id := NextOfEarliest(ops, done, store);
      AfterOne(ops, done, store, id);
      assert Remaining(ops, done + {id}) == Remaining(ops, done) - {id};
      assert id in Remaining(ops, done);
      KeysMerge(ops, done + {id}, StepOp(StoreModel(), store, ops[id]).1);
      CompletableCons(StoreModel(), ops, done, store, id);
    }
  }

  /** An order of the whole history restricts to an order of each key. */
  lemma {:induction false} KeyRestricts(ops: seq<KvOp>, done: set<nat>, store: map<string, string>, key: string)
    requires Timed(ops) && Typed(ops) && Completable(StoreModel(), ops, done, store)
    ensures KeyCompletable(ops, done, store, key)
    decreases Remaining(ops, done)
  {
    var rest := done + Others(ops, key);
    if Remaining(ops, done) == {} {
      forall i: nat | i < |ops| ensures i in rest {
        assert i !in Remaining(ops, done);
      }
      CompletableAll(KvModel(), ops, rest, Lookup(store, key));
    } else {
      var r :| r in Remaining(ops, done);
      var id := CompletableHead(StoreModel(), ops, done, store);
      assert Remaining(ops, done + {id}) == Remaining(ops, done) - {id};
      assert id in Remaining(ops, done);
      KeyRestricts(ops, done + {id}, StepOp(StoreModel(), store, ops[id]).1, key);
      RestrictOne(ops, done, store, key, id);
    }
  }

  lemma RestrictOne(ops: seq<KvOp>, done: set<nat>, store: map<string, string>, key: string, id: nat)
    requires Typed(ops) && MayGoFirst(ops, done, id)
    requires var (ok, store') := StepOp(StoreModel(), store, ops[id]);
      ok && KeyCompletable(ops, done + {id}, store', key)
    ensures KeyCompletable(ops, done, store, key)
  {
    hide Completable;
    var rest := done + Others(ops, key);
    if ops[id].input.key == key {
      assert done + {id} + Others(ops, key) == rest + {id};
      CompletableCons(KvModel(), ops, rest, Lookup(store, key), id);
    } else {
      assert done + {id} + Others(ops, key) == rest;
    }
  }

  // ----- the history of one key, on its own

  function KeyHistory(ops: seq<KvOp>, key: string): seq<KvOp>
    requires forall i :: 0 <= i < |ops| ==> ops[i].input.KvInput?
  {
    if ops == [] then []
    else
      var n := |ops| - 1;
      KeyHistory(ops[..n], key) + if ops[n].input.key == key then [ops[n]] else []
  }

  ghost function KeyPositions(ops: seq<KvOp>, key: string): seq<nat>
    requires Typed(ops)
  {
    if ops == [] then []
    else
      var n := |ops| - 1;
      KeyPositions(ops[..n], key) + if ops[n].input.key == key then [n] else []
  }

  /** `idx` are the positions of `sub`, the operations on `key`. */
  ghost predicate PositionsOk(ops: seq<KvOp>, key: string, sub: seq<KvOp>, idx: seq<nat>)
    requires Typed(ops)
  {
    && |idx| == |sub|
    && (forall i :: 0 <= i < |idx| ==> idx[i] < |ops| && ops[idx[i]] == sub[i] && ops[idx[i]].input.key == key)
    && (forall i, j :: 0 <= i < j < |idx| ==> idx[i] < idx[j])
    && (forall k: nat :: k < |ops| && ops[k].input.key == key ==> k in idx)
  }

  lemma OtherKey(ops: seq<KvOp>, key: string, sub: seq<KvOp>, idx: seq<nat>, op: KvOp)
    requires Typed(ops + [op]) && Typed(ops) && PositionsOk(ops, key, sub, idx)
    requires op.input.KvInput? && op.input.key != key
    ensures PositionsOk(ops + [op], key, sub, idx)
  {
    forall k: nat | k < |ops + [op]| && (ops + [op])[k].input.key == key ensures k in idx {
      assert ops[k].input.key == key;
    }
  }

  lemma SameKey(ops: seq<KvOp>, key: string, sub: seq<KvOp>, idx: seq<nat>, op: KvOp)
    requires Typed(ops + [op]) && Typed(ops) && PositionsOk(ops, key, sub, idx)
    requires op.input.KvInput? && op.input.key == key
    ensures PositionsOk(ops + [op], key, sub + [op], idx + [|ops|])
  {
    var idx' := idx + [|ops|];
    forall k: nat | k < |ops + [op]| && (ops + [op])[k].input.key == key ensures k in idx' {
      if k < |ops| {
        assert ops[k].input.key == key && k in idx;
      } else {
        assert idx'[|idx|] == k;
      }
    }
  }

  lemma {:induction false} PositionsEmbed(ops: seq<KvOp>, key: string)
    requires Typed(ops)
    ensures PositionsOk(ops, key, KeyHistory(ops, key), KeyPositions(ops, key))
  {
    if ops != [] {
      var n := |ops| - 1;
      PositionsEmbed(ops[..n], key);
      assert ops == ops[..n] + [ops[n]];
      hide PositionsOk;
      var sub, idx := KeyHistory(ops[..n], key), KeyPositions(ops[..n], key);
      if ops[n].input.key == key {
        SameKey(ops[..n], key, sub, idx, ops[n]);
      } else {
        OtherKey(ops[..n], key, sub, idx, ops[n]);
        assert KeyHistory(ops, key) == sub && KeyPositions(ops, key) == idx;
      }
    }
  }

  /** Checking one key's own history is checking its part of the whole. */
  lemma KeyHistoryDecides(ops: seq<KvOp>, key: string)
    requires Typed(ops)
    ensures Linearizable(KvModel(), KeyHistory(ops, key)) <==> Completable(KvModel(), ops, Others(ops, key), "")
  {
    PositionsEmbed(ops, key);
    EmbeddingPreserves(KvModel(), KeyHistory(ops, key), ops, Others(ops, key), KeyPositions(ops, key), "");
  }

  ghost predicate KeyLinearizable(ops: seq<KvOp>, key: string)
    requires Typed(ops)
  {
    Linearizable(KvModel(), KeyHistory(ops, key))
  }

  /** Locality: a history is linearizable against the whole store exactly when
      the history of each key is linearizable against the single-key model. */
  lemma Locality(ops: seq<KvOp>)
    requires Timed(ops) && Typed(ops)
    ensures Linearizable(StoreModel(), ops) <==> forall key :: KeyLinearizable(ops, key)
  {
    hide Completable;
    forall key ensures KeyCompletable(ops, {}, map[], key) <==> KeyLinearizable(ops, key) {
      assert {} + Others(ops, key) == Others(ops, key);
      KeyHistoryDecides(ops, key);
    }
    if Completable(StoreModel(), ops, {}, map[]) {
      forall key ensures KeyCompletable(ops, {}, map[], key) {
        KeyRestricts(ops, {}, map[], key);
      }
    } else if KeysCompletable(ops, {}, map[]) {
      KeysMerge(ops, {}, map[]);
    }
  }
}
