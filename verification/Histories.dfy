/**
 Histories of concurrent operations and what it means for one to be linearizable
 (linearizability/model.go).  This is the plain definition: some order of the
 operations respects real time and is accepted by the sequential model.
 */
module Histories {

  /** One completed operation: input, invocation time, output, response time. */
  datatype Operation<V> = Operation(input: V, call: int, output: V, ret: int)

  /** A sequential specification.  `step` says whether the output is allowed for
      the input in the given state, and which state follows. */
  datatype Model<!S, !V> = Model(init: S, step: (S, V, V) -> (bool, S))

  /** Every operation returns after it is called, and no call is simultaneous
      with a return; two calls, or two returns, may share a time. */
  ghost predicate Timed<V>(ops: seq<Operation<V>>) {
    && (forall i :: 0 <= i < |ops| ==> ops[i].call < ops[i].ret)
    && (forall i, j :: 0 <= i < |ops| && 0 <= j < |ops| ==> ops[i].ret != ops[j].call)
  }

  ghost predicate Precedes<V>(a: Operation<V>, b: Operation<V>) {
    a.ret < b.call
  }

  ghost predicate Distinct<T>(s: seq<T>) {
    forall i, j :: 0 <= i < j < |s| ==> s[i] != s[j]
  }

  /** `order` lists, once each, the operations outside `done`, and never puts an
      operation before one that returned before its call. */
  ghost predicate IsOrder<V>(ops: seq<Operation<V>>, done: set<nat>, order: seq<nat>) {
    && Distinct(order)
    && (forall i :: 0 <= i < |order| ==> order[i] < |ops| && order[i] !in done)
    && (forall id: nat :: id < |ops| && id !in done ==> id in order)
    && (forall i, j :: 0 <= i < j < |order| ==> !Precedes(ops[order[j]], ops[order[i]]))
  }

  function StepOp<S, V>(m: Model<S, V>, s: S, op: Operation<V>): (bool, S) {
    m.step(s, op.input, op.output)
  }

  /** The model accepts the operations one after the other, starting in `s`. */
  ghost predicate Accepts<S, V>(m: Model<S, V>, ops: seq<Operation<V>>, s: S, order: seq<nat>)
    requires forall i :: 0 <= i < |order| ==> order[i] < |ops|
  {
    order == [] ||
    var (ok, s') := StepOp(m, s, ops[order[0]]);
    ok && Accepts(m, ops, s', order[1..])
  }

  ghost predicate IsLinearization<S, V>(m: Model<S, V>, ops: seq<Operation<V>>,
                                        done: set<nat>, s: S, order: seq<nat>) {
    IsOrder(ops, done, order) && Accepts(m, ops, s, order)
  }

  /** The operations outside `done` can be linearized from state `s`. */
  ghost predicate Completable<S, V>(m: Model<S, V>, ops: seq<Operation<V>>, done: set<nat>, s: S) {
    exists order :: IsLinearization(m, ops, done, s, order)
  }

  /** The reference definition of linearizability of a whole history. */
  ghost predicate Linearizable<S, V>(m: Model<S, V>, ops: seq<Operation<V>>) {
    Completable(m, ops, {}, m.init)
  }

  /** No unfinished operation returned before `id` was called. */
  ghost predicate MayGoFirst<V>(ops: seq<Operation<V>>, done: set<nat>, id: nat) {
    && id < |ops| && id !in done
    && forall j: nat :: j < |ops| && j !in done ==> !Precedes(ops[j], ops[id])
  }

  /** Linearizing `id` next is allowed by the model and leads to a completion. */
  ghost predicate Extends<S, V>(m: Model<S, V>, ops: seq<Operation<V>>, done: set<nat>, s: S, id: nat)
    requires id < |ops|
  {
    && StepOp(m, s, ops[id]).0
    && Completable(m, ops, done + {id}, StepOp(m, s, ops[id]).1)
  }

  lemma CompletableHead<S, V>(m: Model<S, V>, ops: seq<Operation<V>>, done: set<nat>, s: S) returns (id: nat)
    requires Timed(ops)
    requires Completable(m, ops, done, s)
    requires exists i: nat :: i < |ops| && i !in done
    ensures MayGoFirst(ops, done, id) && Extends(m, ops, done, s, id)
  {
    var order :| IsLinearization(m, ops, done, s, order);
    id := order[0];
    forall j: nat | j < |ops| && j !in done ensures !Precedes(ops[j], ops[id]) {
      var k :| 0 <= k < |order| && order[k] == j;
    }
    var tail := order[1..];
    forall i: nat | i < |ops| && i !in done + {id} ensures i in tail {
      var k :| 0 <= k < |order| && order[k] == i;
      assert tail[k - 1] == i;
    }
    assert IsLinearization(m, ops, done + {id}, StepOp(m, s, ops[id]).1, tail);
  }

  lemma OrderCons<V>(ops: seq<Operation<V>>, done: set<nat>, id: nat, tail: seq<nat>)
    requires MayGoFirst(ops, done, id) && IsOrder(ops, done + {id}, tail)
    ensures IsOrder(ops, done, [id] + tail)
  {
    var order := [id] + tail;
    forall i: nat | i < |ops| && i !in done ensures i in order {
      if i != id {
        assert i in tail;
      }
    }
  }

  lemma CompletableCons<S, V>(m: Model<S, V>, ops: seq<Operation<V>>, done: set<nat>, s: S, id: nat)
    requires MayGoFirst(ops, done, id) && Extends(m, ops, done, s, id)
    ensures Completable(m, ops, done, s)
  {
    var s' := StepOp(m, s, ops[id]).1;
    var tail :| IsLinearization(m, ops, done + {id}, s', tail);
    OrderCons(ops, done, id, tail);
    assert ([id] + tail)[1..] == tail;
    assert IsLinearization(m, ops, done, s, [id] + tail);
  }

  /** Nothing is left to linearize. */
  lemma CompletableAll<S, V>(m: Model<S, V>, ops: seq<Operation<V>>, done: set<nat>, s: S)
    requires forall i: nat :: i < |ops| ==> i in done
    ensures Completable(m, ops, done, s)
  {
    assert IsLinearization(m, ops, done, s, []);
  }

  /** `idx` embeds history `a` into the unfinished part of history `b`: same
      inputs and outputs, same real-time precedence, nothing left uncovered. */
  ghost predicate Embeds<V>(a: seq<Operation<V>>, b: seq<Operation<V>>, done: set<nat>, idx: seq<nat>) {
    && |idx| == |a| && Distinct(idx)
    && (forall i :: 0 <= i < |idx| ==> idx[i] < |b| && idx[i] !in done)
    && (forall k: nat :: k < |b| && k !in done ==> k in idx)
    && (forall i :: 0 <= i < |idx| ==> a[i].input == b[idx[i]].input && a[i].output == b[idx[i]].output)
    && (forall i, j :: 0 <= i < |idx| && 0 <= j < |idx| ==>
          (Precedes(a[i], a[j]) <==> Precedes(b[idx[i]], b[idx[j]])))
  }

  /** Linearizability depends only on values and precedence. */
  lemma EmbeddingPreserves<S, V>(m: Model<S, V>, a: seq<Operation<V>>, b: seq<Operation<V>>, done: set<nat>,
                                 idx: seq<nat>, s: S)
    requires Embeds(a, b, done, idx)
    ensures Completable(m, a, {}, s) <==> Completable(m, b, done, s)
  {
    if Completable(m, a, {}, s) {
      var order :| IsLinearization(m, a, {}, s, order);
      EmbedOrder(m, a, b, done, idx, s, order);
    }
    if Completable(m, b, done, s) {
      var order :| IsLinearization(m, b, done, s, order);
      UnembedOrder(m, a, b, done, idx, s, order);
    }
  }

  function Gather(idx: seq<nat>, order: seq<nat>): seq<nat>
    requires forall i :: 0 <= i < |order| ==> order[i] < |idx|
  {
    seq(|order|, i requires 0 <= i < |order| => idx[order[i]])
  }

  lemma EmbedOrder<S, V>(m: Model<S, V>, a: seq<Operation<V>>, b: seq<Operation<V>>, done: set<nat>, idx: seq<nat>,
                         s: S, order: seq<nat>)
    requires Embeds(a, b, done, idx)
    requires IsLinearization(m, a, {}, s, order)
    ensures Completable(m, b, done, s)
  {
    var mapped := Gather(idx, order);
    forall k: nat | k < |b| && k !in done ensures k in mapped {
      var i :| 0 <= i < |idx| && idx[i] == k;
      assert i in order;
      var p :| 0 <= p < |order| && order[p] == i;
      assert mapped[p] == k;
    }
    GatherAccepts(m, a, b, done, idx, s, order);
    assert IsLinearization(m, b, done, s, mapped);
  }

  lemma UnembedOrder<S, V>(m: Model<S, V>, a: seq<Operation<V>>, b: seq<Operation<V>>, done: set<nat>,
                           idx: seq<nat>, s: S, order: seq<nat>)
    requires Embeds(a, b, done, idx)
    requires IsLinearization(m, b, done, s, order)
    ensures Completable(m, a, {}, s)
  {
    var back := seq(|order|, p requires 0 <= p < |order| => PositionOf(idx, order[p]));
    assert Gather(idx, back) == order;
    forall i: nat | i < |a| ensures i in back {
      assert idx[i] in order;
      var p :| 0 <= p < |order| && order[p] == idx[i];
      assert back[p] == i;
    }
    GatherAccepts(m, a, b, done, idx, s, back);
    assert IsLinearization(m, a, {}, s, back);
  }

  ghost function PositionOf(idx: seq<nat>, k: nat): (i: nat)
    requires k in idx
    ensures i < |idx| && idx[i] == k
  {
    var i :| 0 <= i < |idx| && idx[i] == k; i
  }

  lemma {:induction false} GatherAccepts<S, V>(m: Model<S, V>, a: seq<Operation<V>>, b: seq<Operation<V>>,
                                               done: set<nat>, idx: seq<nat>, s: S, order: seq<nat>)
    requires Embeds(a, b, done, idx)
    requires forall i :: 0 <= i < |order| ==> order[i] < |a|
    ensures Accepts(m, a, s, order) <==> Accepts(m, b, s, Gather(idx, order))
  {
    if order != [] {
      assert Gather(idx, order)[1..] == Gather(idx, order[1..]);
      GatherAccepts(m, a, b, done, idx, StepOp(m, s, a[order[0]]).1, order[1..]);
    }
  }
}
