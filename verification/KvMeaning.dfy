/**
 What the key/value model accepts, said without its step function
 (linearizability/models.go:29-48): a get returns the value of the last put to its
 key before it, followed by the values appended to that key since.
 */
module KvMeaning {
  import opened Histories
  import opened KvLocality

  predicate IsGet(op: KvOp) { op.input.KvInput? && op.input.op == 0 }

  predicate IsPut(op: KvOp, key: string) { op.input.KvInput? && op.input.op == 1 && op.input.key == key }

  /** Every other number is an append. */
  predicate IsAppend(op: KvOp, key: string) {
    op.input.KvInput? && op.input.op != 0 && op.input.op != 1 && op.input.key == key
  }

  /** The position of the last put to `key` before `j`, or -1. */
  function LastPut(ops: seq<KvOp>, key: string, j: nat): (i: int)
    requires j <= |ops|
    ensures -1 <= i < j && (i >= 0 ==> IsPut(ops[i], key))
    ensures forall k :: i < k < j ==> !IsPut(ops[k], key)
  {
    if j == 0 then -1 else if IsPut(ops[j - 1], key) then j - 1 else LastPut(ops, key, j - 1)
  }

  /** What was appended to `key` from position `i` to before `j`, in order. */
  function Appended(ops: seq<KvOp>, key: string, i: nat, j: nat): string
    requires i <= j <= |ops|
  {
    if i == j then ""
    else Appended(ops, key, i, j - 1) + if IsAppend(ops[j - 1], key) then ops[j - 1].input.value else ""
  }

  /** What a get of `key` at position `j` should return. */
  function Expected(ops: seq<KvOp>, key: string, j: nat): string
    requires j <= |ops|
  {
    var i := LastPut(ops, key, j);
    (if i >= 0 then ops[i].input.value else "") + Appended(ops, key, i + 1, j)
  }

  ghost predicate GetRight(ops: seq<KvOp>, j: nat)
    requires j < |ops|
  {
    IsGet(ops[j]) ==> ops[j].output == KvOutput(Expected(ops, ops[j].input.key, j))
  }

  /** Every get, in the order listed, returns what it should. */
  ghost predicate GetsRight(ops: seq<KvOp>) {
    forall j :: 0 <= j < |ops| ==> GetRight(ops, j)
  }

  /** The store holds what gets at position `k` should return. */
  ghost predicate Holds(store: map<string, string>, ops: seq<KvOp>, k: nat)
    requires k <= |ops|
  {
    forall key :: Lookup(store, key) == Expected(ops, key, k)
  }

  /** One more operation: what later gets of `key` should return. */
  lemma ExpectedNext(ops: seq<KvOp>, key: string, k: nat)
    requires k < |ops|
    ensures Expected(ops, key, k + 1) ==
      if IsPut(ops[k], key) then ops[k].input.value
      else if IsAppend(ops[k], key) then Expected(ops, key, k) + ops[k].input.value
      else Expected(ops, key, k)
  {
    var i := LastPut(ops, key, k);
    if !IsPut(ops[k], key) {
      assert LastPut(ops, key, k + 1) == i;
      var head := if i >= 0 then ops[i].input.value else "";
      var more := if IsAppend(ops[k], key) then ops[k].input.value else "";
      assert head + (Appended(ops, key, i + 1, k) + more) == head + Appended(ops, key, i + 1, k) + more;
    }
  }

  lemma StepHolds(store: map<string, string>, ops: seq<KvOp>, k: nat)
    requires Typed(ops) && k < |ops| && Holds(store, ops, k)
    ensures var (ok, store') := StepOp(StoreModel(), store, ops[k]);
      (ok <==> GetRight(ops, k)) && Holds(store', ops, k + 1)
  {
    hide Expected, IsPut, IsAppend;
    var key, store' := ops[k].input.key, StepOp(StoreModel(), store, ops[k]).1;
    assert Lookup(store, key) == Expected(ops, key, k);
    KindsExclude(ops[k], key);
    forall other ensures Lookup(store', other) == Expected(ops, other, k + 1) {
      assert Lookup(store, other) == Expected(ops, other, k);
      ExpectedNext(ops, other, k);
      KindsExclude(ops[k], other);
    }
  }

  lemma KindsExclude(op: KvOp, key: string)
    requires op.input.KvInput?
    ensures IsPut(op, key) <==> op.input.key == key && op.input.op == 1
    ensures IsAppend(op, key) <==> op.input.key == key && op.input.op != 0 && op.input.op != 1
  {
  }

  /** The operations, in the given order. */
  function Listed(ops: seq<KvOp>, order: seq<nat>): (r: seq<KvOp>)
    requires forall i :: 0 <= i < |order| ==> order[i] < |ops|
    ensures |r| == |order| && forall i :: 0 <= i < |r| ==> r[i] == ops[order[i]]
  {
    seq(|order|, i requires 0 <= i < |order| => ops[order[i]])
  }

  ghost predicate GetsRightFrom(ops: seq<KvOp>, k: nat) {
    forall j :: k <= j < |ops| ==> GetRight(ops, j)
  }

  lemma {:induction false} AcceptsFrom(ops: seq<KvOp>, order: seq<nat>, k: nat, store: map<string, string>)
    requires Typed(ops) && (forall i :: 0 <= i < |order| ==> order[i] < |ops|) && k <= |order|
    requires Holds(store, Listed(ops, order), k)
    ensures Accepts(StoreModel(), ops, store, order[k..]) <==> GetsRightFrom(Listed(ops, order), k)
    decreases |order| - k
  {
    hide Holds, GetRight, StoreModel;
    var list := Listed(ops, order);
    if k < |order| {
      var (ok, store') := StepOp(StoreModel(), store, list[k]);
      StepHolds(store, list, k);
      AcceptsFrom(ops, order, k + 1, store');
      hide StepOp;
      assert order[k..][0] == order[k] && order[k..][1..] == order[k + 1..];
      assert GetsRightFrom(list, k) <==> GetRight(list, k) && GetsRightFrom(list, k + 1);
    }
  }

  /** From the empty store the model accepts an order exactly if every get in it
      returns the last put to its key, followed by what was appended since. */
  lemma AcceptsExactly(ops: seq<KvOp>, order: seq<nat>)
    requires Typed(ops) && forall i :: 0 <= i < |order| ==> order[i] < |ops|
    ensures Accepts(StoreModel(), ops, map[], order) <==> GetsRight(Listed(ops, order))
  {
    AcceptsFrom(ops, order, 0, map[]);
    assert order[0..] == order;
  }

  ghost predicate Explains(ops: seq<KvOp>, order: seq<nat>) {
    IsOrder(ops, {}, order) && GetsRight(Listed(ops, order))
  }

  /** What it means for a history to be linearizable against the whole store. */
  lemma StoreLinearizable(ops: seq<KvOp>)
    requires Typed(ops)
    ensures Linearizable(StoreModel(), ops) <==> exists order :: Explains(ops, order)
  {
    hide Accepts, GetsRight;
    if Linearizable(StoreModel(), ops) {
      var order :| IsLinearization(StoreModel(), ops, {}, map[], order);
      AcceptsExactly(ops, order);
      assert Explains(ops, order);
    }
    if order :| Explains(ops, order) {
      AcceptsExactly(ops, order);
      assert IsLinearization(StoreModel(), ops, {}, map[], order);
    }
  }

  // ----- operations that never overlap

  ghost predicate NeverOverlap<V>(ops: seq<Operation<V>>) {
    forall i, j :: 0 <= i < |ops| && 0 <= j < |ops| && i != j ==> Precedes(ops[i], ops[j]) || Precedes(ops[j], ops[i])
  }

  /** There is an order: by return. */
  lemma {:induction false} OrderExists<V>(ops: seq<Operation<V>>, done: set<nat>) returns (order: seq<nat>)
    requires Timed(ops)
    ensures IsOrder(ops, done, order)
    decreases Remaining(ops, done)
  {
    var rest := Remaining(ops, done);
    if rest == {} {
      order := [];
      assert forall id: nat :: id < |ops| && id !in done ==> id in rest;
    } else {
      var o := EarliestReturn(ops, rest);
      assert Remaining(ops, done + {o}) == rest - {o};
      order := OrderExists(ops, done + {o});
      forall j: nat | j < |ops| && j !in done ensures !Precedes(ops[j], ops[o]) {
        assert j in rest;
      }
      OrderCons(ops, done, o, order);
      order := [o] + order;
    }
  }

  /** And no other. */
  lemma {:induction false} OrderUnique<V>(ops: seq<Operation<V>>, done: set<nat>, a: seq<nat>, b: seq<nat>)
    requires Timed(ops) && NeverOverlap(ops) && IsOrder(ops, done, a) && IsOrder(ops, done, b)
    ensures a == b
    decreases |a|
  {
    FirstsShared(ops, done, a, b);
    if a == [] {
    } else {
      SameFirst(ops, done, a, b);
      RestIsOrder(ops, done, a);
      RestIsOrder(ops, done, b);
      OrderUnique(ops, done + {a[0]}, a[1..], b[1..]);
      assert a == [a[0]] + a[1..] && b == [b[0]] + b[1..];
    }
  }

  lemma FirstsShared<V>(ops: seq<Operation<V>>, done: set<nat>, a: seq<nat>, b: seq<nat>)
    requires IsOrder(ops, done, a) && IsOrder(ops, done, b)
    ensures (a == [] || a[0] in b) && (b == [] || b[0] in a)
  {
  }

  lemma NotBeforeFirst<V>(ops: seq<Operation<V>>, done: set<nat>, a: seq<nat>, id: nat)
    requires IsOrder(ops, done, a) && id in a
    ensures id == a[0] || !Precedes(ops[id], ops[a[0]])
  {
    var i :| 0 <= i < |a| && a[i] == id;
    assert i == 0 || !Precedes(ops[a[i]], ops[a[0]]);
  }

  lemma SameFirst<V>(ops: seq<Operation<V>>, done: set<nat>, a: seq<nat>, b: seq<nat>)
    requires NeverOverlap(ops) && IsOrder(ops, done, a) && IsOrder(ops, done, b) && a != [] && b != []
    ensures a[0] == b[0]
  {
    FirstsShared(ops, done, a, b);
    NotBeforeFirst(ops, done, a, b[0]);
    NotBeforeFirst(ops, done, b, a[0]);
  }

  lemma RestIsOrder<V>(ops: seq<Operation<V>>, done: set<nat>, a: seq<nat>)
    requires IsOrder(ops, done, a) && a != []
    ensures IsOrder(ops, done + {a[0]}, a[1..])
  {
    forall id: nat | id < |ops| && id !in done + {a[0]} ensures id in a[1..] {
      var i :| 0 <= i < |a| && a[i] == id;
      assert a[1..][i - 1] == id;
    }
  }

  /** A history without overlap has one order, and is linearizable exactly if in that
      order every get returns what it should. */
  lemma SequentialExactly(ops: seq<KvOp>) returns (order: seq<nat>)
    requires Timed(ops) && Typed(ops) && NeverOverlap(ops)
    ensures IsOrder(ops, {}, order) && (forall other :: IsOrder(ops, {}, other) ==> other == order)
    ensures Linearizable(StoreModel(), ops) <==> GetsRight(Listed(ops, order))
  {
    hide GetsRight, Linearizable;
    order := OrderExists(ops, {});
    forall other | IsOrder(ops, {}, other) ensures other == order {
      OrderUnique(ops, {}, other, order);
    }
    StoreLinearizable(ops);
    assert GetsRight(Listed(ops, order)) ==> Explains(ops, order);
  }
}
