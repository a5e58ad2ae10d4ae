/**
 The state of the backtracking search of `checkSingle` as a value, with the
 invariant it keeps and one lemma for each way the loop body moves
 (linearizability/linearizability.go:167-214).

 Times are positions in the entry list, so the cursor is a time too.
 */
module Search {
  import opened Common
  import opened Histories

  /** `path` holds the ids on the `calls` stack; `states[k]` is the model state
      before linearizing `path[k]` and the last of `states` the current one;
      `seen` is the set of cached pairs. */
  datatype Search<S(==)> = Search(path: seq<nat>, states: seq<S>, seen: set<(set<nat>, S)>, cursor: int)

  /** Times are positions in one list: no two entries share one. */
  ghost predicate Positioned<V>(ops: seq<Operation<V>>) {
    && Timed(ops)
    && (forall i :: 0 <= i < |ops| ==> 0 <= ops[i].call)
    && (forall i, j :: 0 <= i < j < |ops| ==> ops[i].call != ops[j].call && ops[i].ret != ops[j].ret)
  }

  ghost function Ids(path: seq<nat>): set<nat> {
    set i | 0 <= i < |path| :: path[i]
  }

  ghost predicate DeadEnd<S, V>(m: Model<S, V>, ops: seq<Operation<V>>, done: set<nat>, s: S, id: nat)
    requires id < |ops|
  {
    !Extends(m, ops, done, s, id)
  }

  /** Every remaining entry before the cursor is a call that leads nowhere. */
  ghost predicate Explored<S, V>(m: Model<S, V>, ops: seq<Operation<V>>, done: set<nat>, s: S, cursor: int) {
    && (forall i: nat :: i < |ops| && i !in done ==> cursor <= ops[i].ret)
    && (forall i: nat :: i < |ops| && i !in done && ops[i].call < cursor ==> DeadEnd(m, ops, done, s, i))
  }

  ghost predicate Shape<S, V>(ops: seq<Operation<V>>, st: Search<S>) {
    && |st.states| == |st.path| + 1
    && Distinct(st.path)
    && (forall k :: 0 <= k < |st.path| ==> st.path[k] < |ops|)
  }

  /** The pair the search was in with `k` operations on the stack. */
  ghost function PairAt<S, V>(ops: seq<Operation<V>>, st: Search<S>, k: nat): (set<nat>, S)
    requires Shape(ops, st) && k <= |st.path|
  {
    (Ids(st.path[..k]), st.states[k])
  }

  /** The stack is a run of the model whose every step could go first, and the
      candidates before each stacked one have been ruled out. */
  ghost predicate Stacked<S, V>(m: Model<S, V>, ops: seq<Operation<V>>, st: Search<S>, k: nat)
    requires Shape(ops, st) && k < |st.path|
  {
    var (done, s) := PairAt(ops, st, k);
    && MayGoFirst(ops, done, st.path[k])
    && StepOp(m, s, ops[st.path[k]]) == (true, st.states[k + 1])
    && Explored(m, ops, done, s, ops[st.path[k]].call)
  }

  ghost predicate OnStack<S, V>(ops: seq<Operation<V>>, st: Search<S>, p: (set<nat>, S))
    requires Shape(ops, st)
  {
    exists k: nat :: k <= |st.path| && p == PairAt(ops, st, k)
  }

  /** Cache pruning loses no solution: a cached pair is on the stack or has no
      completion. */
  ghost predicate CacheSound<S, V>(m: Model<S, V>, ops: seq<Operation<V>>, st: Search<S>)
    requires Shape(ops, st)
  {
    forall p :: p in st.seen ==> OnStack(ops, st, p) || !Completable(m, ops, p.0, p.1)
  }

  ghost predicate Inv<S, V>(m: Model<S, V>, ops: seq<Operation<V>>, st: Search<S>) {
    && Positioned(ops)
    && Shape(ops, st)
    && st.states[0] == m.init
    && (forall k: nat :: k < |st.path| ==> Stacked(m, ops, st, k))
    && Explored(m, ops, Ids(st.path), Current(ops, st), st.cursor)
    && CacheSound(m, ops, st)
    && st.seen <= Reachable(m, ops, |ops|)
  }

  ghost function Current<S, V>(ops: seq<Operation<V>>, st: Search<S>): S
    requires Shape(ops, st)
  {
    st.states[|st.path|]
  }

  // ----- the finite universe of pairs, for termination

  ghost function Children<S, V>(m: Model<S, V>, ops: seq<Operation<V>>, p: (set<nat>, S)): set<(set<nat>, S)> {
    set id: nat | 0 <= id < |ops| && id !in p.0 && StepOp(m, p.1, ops[id]).0
      :: (p.0 + {id}, StepOp(m, p.1, ops[id]).1)
  }

  /** The (set, state) pairs that at most `n` model steps can reach. */
  ghost function Reachable<S, V>(m: Model<S, V>, ops: seq<Operation<V>>, n: nat): set<(set<nat>, S)> {
    if n == 0 then {({}, m.init)}
    else
      var r := Reachable(m, ops, n - 1);
      r + set p, c | p in r && c in Children(m, ops, p) :: c
  }

  lemma ReachableStep<S, V>(m: Model<S, V>, ops: seq<Operation<V>>, n: nat, p: (set<nat>, S), id: nat)
    requires p in Reachable(m, ops, n) && id < |ops| && id !in p.0 && StepOp(m, p.1, ops[id]).0
    ensures (p.0 + {id}, StepOp(m, p.1, ops[id]).1) in Reachable(m, ops, n + 1)
  {
    assert (p.0 + {id}, StepOp(m, p.1, ops[id]).1) in Children(m, ops, p);
  }

  lemma {:induction false} ReachableGrows<S, V>(m: Model<S, V>, ops: seq<Operation<V>>, a: nat, b: nat)
    requires a <= b
    ensures Reachable(m, ops, a) <= Reachable(m, ops, b)
    decreases b
  {
    if a < b {
      ReachableGrows(m, ops, a, b - 1);
      assert Reachable(m, ops, b - 1) <= Reachable(m, ops, b) by { hide Children; }
    }
  }

  lemma IdsPrefix(path: seq<nat>, k: nat)
    requires k < |path|
    ensures Ids(path[..k + 1]) == Ids(path[..k]) + {path[k]}
  {
    var a, b := path[..k + 1], path[..k];
    forall x ensures x in Ids(a) <==> x in Ids(b) + {path[k]} {
      if x in Ids(a) {
        var i :| 0 <= i < |a| && a[i] == x;
        assert i < k ==> b[i] == x;
      }
      if x in Ids(b) {
        var i :| 0 <= i < |b| && b[i] == x;
        assert a[i] == x;
      }
      assert a[k] == path[k];
    }
  }

  lemma {:induction false} PathReachable<S, V>(m: Model<S, V>, ops: seq<Operation<V>>, st: Search<S>, k: nat)
    requires Inv(m, ops, st) && k <= |st.path|
    ensures PairAt(ops, st, k) in Reachable(m, ops, k)
  {
    if k == 0 {
      assert Ids(st.path[..0]) == {};
    } else {
      PathReachable(m, ops, st, k - 1);
      assert Stacked(m, ops, st, k - 1);
      IdsPrefix(st.path, k - 1);
      ReachableStep(m, ops, k - 1, PairAt(ops, st, k - 1), st.path[k - 1]);
    }
  }

  lemma {:induction false} IdsSize(path: seq<nat>)
    requires Distinct(path)
    ensures |Ids(path)| == |path|
  {
    if path != [] {
      var k := |path| - 1;
      IdsSize(path[..k]);
      IdsPrefix(path, k);
      assert path[..k + 1] == path;
    }
  }

  lemma PathLength(path: seq<nat>, n: nat)
    requires Distinct(path) && forall k :: 0 <= k < |path| ==> path[k] < n
    ensures |path| <= n
  {
    IdsSize(path);
    SubsetSize(Ids(path), Below(n));
  }

  // ----- the initial state and the moves of the loop

  ghost function Start<S, V>(m: Model<S, V>): Search<S> {
    Search([], [m.init], {}, 0)
  }

  lemma StartInv<S, V>(m: Model<S, V>, ops: seq<Operation<V>>)
    requires Positioned(ops)
    ensures Inv(m, ops, Start(m))
  {
    assert Ids([]) == {};
  }

  /** The cursor stands on the call of `id`, which is still to be linearized. */
  ghost predicate AtCall<S, V>(ops: seq<Operation<V>>, st: Search<S>, id: nat) {
    id < |ops| && id !in Ids(st.path) && ops[id].call == st.cursor
  }

  ghost predicate AtReturn<S, V>(ops: seq<Operation<V>>, st: Search<S>, id: nat) {
    id < |ops| && id !in Ids(st.path) && ops[id].ret == st.cursor
  }

  /** `to` is the time of the first remaining entry after `from`, or later than
      `from` with none left in between. */
  ghost predicate NothingBetween<V>(ops: seq<Operation<V>>, done: set<nat>, from: int, to: int) {
    && from < to
    && forall i: nat :: i < |ops| && i !in done ==>
         !(from < ops[i].call < to) && !(from < ops[i].ret < to)
  }

  /** A pair about to be looked up is larger than every pair on the stack. */
  lemma NewPairOffStack<S, V>(m: Model<S, V>, ops: seq<Operation<V>>, st: Search<S>, id: nat, s': S)
    requires Inv(m, ops, st)
    requires id !in Ids(st.path)
    ensures !OnStack(ops, st, (Ids(st.path) + {id}, s'))
  {
    IdsSize(st.path);
    forall k: nat | k <= |st.path| ensures |PairAt(ops, st, k).0| <= |st.path| {
      IdsSize(st.path[..k]);
    }
  }

  /** The candidate is rejected by the model or leads to a pair known from the
      cache: moving past its call keeps the invariant. */
  lemma SkipCall<S, V>(m: Model<S, V>, ops: seq<Operation<V>>, st: Search<S>, id: nat, to: int)
    requires Inv(m, ops, st) && AtCall(ops, st, id)
    requires var (ok, s') := StepOp(m, Current(ops, st), ops[id]);
             ok ==> (Ids(st.path) + {id}, s') in st.seen
    requires NothingBetween(ops, Ids(st.path), st.cursor, to)
    ensures Inv(m, ops, st.(cursor := to))
  {
    var done, s, st' := Ids(st.path), Current(ops, st), st.(cursor := to);
    var (ok, s') := StepOp(m, s, ops[id]);
    if ok {
      NewPairOffStack(m, ops, st, id, s');
    }
    MoveCursor(m, ops, done, s, st.cursor, to, id);
    SameStack(m, ops, st, st');
  }

  lemma MoveCursor<S, V>(m: Model<S, V>, ops: seq<Operation<V>>, done: set<nat>, s: S, from: int, to: int, id: nat)
    requires Positioned(ops) && id < |ops| && id !in done && DeadEnd(m, ops, done, s, id)
    requires ops[id].call == from
    requires Explored(m, ops, done, s, from) && NothingBetween(ops, done, from, to)
    ensures Explored(m, ops, done, s, to)
  {
  }

  lemma SameStack<S, V>(m: Model<S, V>, ops: seq<Operation<V>>, st: Search<S>, st': Search<S>)
    requires Inv(m, ops, st)
    requires st' == st.(cursor := st'.cursor)
    ensures Shape(ops, st') && CacheSound(m, ops, st')
    ensures forall k: nat :: k < |st'.path| ==> Stacked(m, ops, st', k)
  {
    forall p | p in st.seen ensures OnStack(ops, st', p) || !Completable(m, ops, p.0, p.1) {
      if OnStack(ops, st, p) {
        var k: nat :| k <= |st.path| && p == PairAt(ops, st, k);
        assert p == PairAt(ops, st', k);
      }
    }
    forall k: nat | k < |st'.path| ensures Stacked(m, ops, st', k) {
      assert Stacked(m, ops, st, k);
    }
  }

  /** The candidate is linearized: it goes on the stack, its pair in the cache,
      and the cursor to the first remaining entry. */
  ghost function Push<S, V>(m: Model<S, V>, ops: seq<Operation<V>>, st: Search<S>, id: nat, to: int): Search<S>
    requires Shape(ops, st) && id < |ops|
  {
    var s' := StepOp(m, Current(ops, st), ops[id]).1;
    Search(st.path + [id], st.states + [s'], st.seen + {(Ids(st.path) + {id}, s')}, to)
  }

  ghost predicate First<V>(ops: seq<Operation<V>>, done: set<nat>, to: int) {
    forall i: nat :: i < |ops| && i !in done ==> to <= ops[i].call
  }

  lemma PushInv<S, V>(m: Model<S, V>, ops: seq<Operation<V>>, st: Search<S>, id: nat, to: int)
    requires Inv(m, ops, st) && AtCall(ops, st, id)
    requires StepOp(m, Current(ops, st), ops[id]).0
    requires First(ops, Ids(st.path) + {id}, to)
    ensures Ids(st.path + [id]) == Ids(st.path) + {id}
    ensures Inv(m, ops, Push(m, ops, st, id, to))
  {
    hide Reachable, CacheSound;
    var st' := Push(m, ops, st, id, to);
    var n := |st.path|;
    IdsPrefix(st'.path, n);
    assert st'.path[..n] == st.path && st'.path[..n + 1] == st'.path;
    forall k: nat | k <= n ensures PairAt(ops, st, k) == PairAt(ops, st', k) {
      assert st'.path[..k] == st.path[..k];
    }
    forall k: nat | k < |st'.path| ensures Stacked(m, ops, st', k) {
      if k < n {
        assert Stacked(m, ops, st, k);
      } else {
        assert st.path[..n] == st.path;
      }
    }
    PushCache(m, ops, st, st', id);
    PushReachable(m, ops, st, id);
  }

  lemma PushCache<S, V>(m: Model<S, V>, ops: seq<Operation<V>>, st: Search<S>, st': Search<S>, id: nat)
    requires Inv(m, ops, st) && id < |ops| && Shape(ops, st')
    requires st' == Push(m, ops, st, id, st'.cursor)
    requires Ids(st'.path) == Ids(st.path) + {id}
    requires forall k: nat :: k <= |st.path| ==> PairAt(ops, st, k) == PairAt(ops, st', k)
    ensures CacheSound(m, ops, st')
  {
    forall p | p in st'.seen ensures OnStack(ops, st', p) || !Completable(m, ops, p.0, p.1) {
      if p in st.seen && OnStack(ops, st, p) {
        var k: nat :| k <= |st.path| && p == PairAt(ops, st, k);
        assert p == PairAt(ops, st', k);
      } else if p !in st.seen {
        assert st'.path[..|st'.path|] == st'.path;
        assert p == PairAt(ops, st', |st'.path|);
      }
    }
  }

  lemma PushReachable<S, V>(m: Model<S, V>, ops: seq<Operation<V>>, st: Search<S>, id: nat)
    requires Inv(m, ops, st) && id < |ops| && id !in Ids(st.path)
    requires StepOp(m, Current(ops, st), ops[id]).0
    ensures (Ids(st.path) + {id}, StepOp(m, Current(ops, st), ops[id]).1) in Reachable(m, ops, |ops|)
  {
    hide Reachable, Children, Explored, MayGoFirst, CacheSound, Stacked, StepOp;
    var n := |st.path|;
    assert st.path[..n] == st.path;
    PathReachable(m, ops, st, n);
    ReachableStep(m, ops, n, PairAt(ops, st, n), id);
    PathLength(st.path + [id], |ops|);
    ReachableGrows(m, ops, n + 1, |ops|);
  }

  /** At a remaining return every candidate has failed. */
  lemma ExhaustedIsDead<S, V>(m: Model<S, V>, ops: seq<Operation<V>>, st: Search<S>, id: nat)
    requires Inv(m, ops, st) && AtReturn(ops, st, id)
    ensures !Completable(m, ops, Ids(st.path), Current(ops, st))
  {
    var done, s := Ids(st.path), Current(ops, st);
    if Completable(m, ops, done, s) {
      var first := CompletableHead(m, ops, done, s);
      assert false;
    }
  }

  ghost function Pop<S, V>(ops: seq<Operation<V>>, st: Search<S>, to: int): Search<S>
    requires Shape(ops, st) && st.path != []
  {
    var n := |st.path| - 1;
    st.(path := st.path[..n], states := st.states[..n + 1], cursor := to)
  }

  /** Backtracking: the pair given up stays in the cache, now known dead. */
  lemma PopInv<S, V>(m: Model<S, V>, ops: seq<Operation<V>>, st: Search<S>, id: nat, to: int)
    requires Inv(m, ops, st) && AtReturn(ops, st, id) && st.path != []
    requires var n := |st.path| - 1;
             NothingBetween(ops, Ids(st.path[..n]), ops[st.path[n]].call, to)
    ensures Inv(m, ops, Pop(ops, st, to))
    ensures Ids(st.path) == Ids(st.path[..|st.path| - 1]) + {st.path[|st.path| - 1]}
  {
    hide Reachable, CacheSound;
    var st', n := Pop(ops, st, to), |st.path| - 1;
    var last := st.path[n];
    ExhaustedIsDead(m, ops, st, id);
    IdsPrefix(st.path, n);
    assert st.path[..n + 1] == st.path && st'.path[..n] == st'.path;
    assert Stacked(m, ops, st, n);
    forall k: nat | k <= n ensures PairAt(ops, st, k) == PairAt(ops, st', k) {
      assert st'.path[..k] == st.path[..k];
    }
    forall k: nat | k < n ensures Stacked(m, ops, st', k) {
      assert Stacked(m, ops, st, k);
    }
    MoveCursor(m, ops, Ids(st'.path), Current(ops, st'), ops[last].call, to, last);
    PopCache(m, ops, st, st');
  }

  lemma PopCache<S, V>(m: Model<S, V>, ops: seq<Operation<V>>, st: Search<S>, st': Search<S>)
    requires Inv(m, ops, st) && st.path != [] && Shape(ops, st')
    requires st' == Pop(ops, st, st'.cursor)
    requires !Completable(m, ops, Ids(st.path), Current(ops, st))
    requires forall k: nat :: k < |st.path| ==> PairAt(ops, st, k) == PairAt(ops, st', k)
    ensures CacheSound(m, ops, st')
  {
    forall p | p in st'.seen ensures OnStack(ops, st', p) || !Completable(m, ops, p.0, p.1) {
      if OnStack(ops, st, p) {
        var k: nat :| k <= |st.path| && p == PairAt(ops, st, k);
        if k < |st.path| {
          assert p == PairAt(ops, st', k);
        } else {
          assert st.path[..k] == st.path;
        }
      }
    }
  }

  // ----- the two verdicts

  /** A completion of the current pair carries back to the whole history. */
  lemma {:induction false} StackCompletes<S, V>(m: Model<S, V>, ops: seq<Operation<V>>, st: Search<S>, k: nat)
    requires Inv(m, ops, st) && k <= |st.path|
    requires Completable(m, ops, PairAt(ops, st, k).0, PairAt(ops, st, k).1)
    ensures Linearizable(m, ops)
  {
    if k == 0 {
      assert Ids(st.path[..0]) == {};
    } else {
      assert Stacked(m, ops, st, k - 1);
      IdsPrefix(st.path, k - 1);
      var (done, s) := PairAt(ops, st, k - 1);
      CompletableCons(m, ops, done, s, st.path[k - 1]);
      StackCompletes(m, ops, st, k - 1);
    }
  }

  lemma FoundIsLinearizable<S, V>(m: Model<S, V>, ops: seq<Operation<V>>, st: Search<S>)
    requires Inv(m, ops, st)
    requires forall i: nat :: i < |ops| ==> i in Ids(st.path)
    ensures Linearizable(m, ops)
  {
    var n := |st.path|;
    assert st.path[..n] == st.path;
    CompletableAll(m, ops, Ids(st.path), Current(ops, st));
    StackCompletes(m, ops, st, n);
  }

  lemma ExhaustedIsNotLinearizable<S, V>(m: Model<S, V>, ops: seq<Operation<V>>, st: Search<S>, id: nat)
    requires Inv(m, ops, st) && AtReturn(ops, st, id) && st.path == []
    ensures !Linearizable(m, ops)
  {
    ExhaustedIsDead(m, ops, st, id);
    assert Ids(st.path) == {};
  }
}
