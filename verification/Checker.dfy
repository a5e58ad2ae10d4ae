/**
 `checkSingle`: the backtracking search for a linearization, with its linked
 list, its bit set and its hashed cache, proved to decide the plain definition
 (linearizability/linearizability.go:71-78, 128-145, 167-214).
 */
module Checker {
  import opened Common
  import opened Histories
  import opened Search
  import opened LinkedEntries
  import Bitset

  // ----- the cache

  datatype CacheEntry<S> = CacheEntry(linearized: array<bv64>, state: S)

  /** A 64-bit hash as a map key. */
  datatype Digest = Digest(bits: bv64)

  type Cache<S> = map<Digest, seq<CacheEntry<S>>>

  ghost function PairOf<S>(e: CacheEntry<S>): (set<nat>, S)
    reads e.linearized
  {
    (Bitset.Members(e.linearized[..]), e.state)
  }

  ghost predicate InCache<S>(cache: Cache<S>, h: Digest, i: int) {
    h in cache && 0 <= i < |cache[h]|
  }

  /** The cached bit sets are the arrays in `owned`, each in the bucket of its
      hash and over `len` words, and together they hold exactly `seen`. */
  ghost predicate CacheHolds<S>(cache: Cache<S>, seen: set<(set<nat>, S)>, len: nat, owned: set<array<bv64>>)
    reads owned
  {
    && (forall h, i :: InCache(cache, h, i) ==> CachedWell(cache[h][i], h, seen, len, owned))
    && (forall p :: p in seen ==> exists h, i :: InCache(cache, h, i) && PairIs(cache[h][i], p, owned))
  }

  ghost predicate CachedWell<S>(e: CacheEntry<S>, h: Digest, seen: set<(set<nat>, S)>, len: nat,
                                owned: set<array<bv64>>)
    reads owned
  {
    && e.linearized in owned && e.linearized.Length == len
    && Digest(Bitset.HashOf(e.linearized[..])) == h && PairOf(e) in seen
  }

  ghost predicate PairIs<S>(e: CacheEntry<S>, p: (set<nat>, S), owned: set<array<bv64>>)
    reads owned
  {
    e.linearized in owned && PairOf(e) == p
  }

  function Bucket<S>(cache: Cache<S>, h: Digest): seq<CacheEntry<S>> {
    if h in cache then cache[h] else []
  }

  lemma BucketAppend<S>(cache: Cache<S>, e: CacheEntry<S>, h: Digest, g: Digest, i: int)
    ensures var cache' := cache[h := Bucket(cache, h) + [e]];
      && (InCache(cache', g, i) <==> InCache(cache, g, i) || (g == h && i == |Bucket(cache, h)|))
      && (InCache(cache, g, i) ==> cache'[g][i] == cache[g][i])
      && (g == h && i == |Bucket(cache, h)| ==> cache'[g][i] == e)
  {
  }

  lemma SamePair<S>(a: CacheEntry<S>, b: CacheEntry<S>)
    requires a.linearized.Length == b.linearized.Length
    ensures PairOf(a) == PairOf(b) <==> a.linearized[..] == b.linearized[..] && a.state == b.state
  {
    hide Bitset.Members;
    if PairOf(a) == PairOf(b) {
      Bitset.MembersInjective(a.linearized[..], b.linearized[..]);
    }
  }

  /** A pair is cached nowhere but in the bucket of its hash. */
  lemma OnlyInBucket<S>(cache: Cache<S>, seen: set<(set<nat>, S)>, owned: set<array<bv64>>, e: CacheEntry<S>, h: Digest)
    requires CacheHolds(cache, seen, e.linearized.Length, owned)
    requires h == Digest(Bitset.HashOf(e.linearized[..]))
    requires PairOf(e) in seen
    ensures exists i :: InCache(cache, h, i) && PairOf(cache[h][i]) == PairOf(e)
  {
    hide Bitset.Members, Bitset.HashOf;
    var g, i :| InCache(cache, g, i) && PairIs(cache[g][i], PairOf(e), owned);
    assert CachedWell(cache[g][i], g, seen, e.linearized.Length, owned);
    SamePair(e, cache[g][i]);
  }

  lemma BucketDecides<S>(cache: Cache<S>, seen: set<(set<nat>, S)>, owned: set<array<bv64>>, e: CacheEntry<S>,
                         h: Digest)
    requires CacheHolds(cache, seen, e.linearized.Length, owned)
    requires h == Digest(Bitset.HashOf(e.linearized[..]))
    ensures PairOf(e) in seen <==> exists j :: 0 <= j < |Bucket(cache, h)| && SameEntry(e, Bucket(cache, h)[j])
  {
    hide Bitset.Members, Bitset.HashOf;
    var bucket := Bucket(cache, h);
    if PairOf(e) in seen {
      OnlyInBucket(cache, seen, owned, e, h);
      var i :| InCache(cache, h, i) && PairOf(cache[h][i]) == PairOf(e);
      assert CachedWell(cache[h][i], h, seen, e.linearized.Length, owned);
      SamePair(e, cache[h][i]);
      assert SameEntry(e, bucket[i]);
    }
    if j :| 0 <= j < |bucket| && SameEntry(e, bucket[j]) {
      assert InCache(cache, h, j);
      SamePair(e, cache[h][j]);
    }
  }

  ghost predicate SameEntry<S>(a: CacheEntry<S>, b: CacheEntry<S>)
    reads a.linearized, b.linearized
  {
    a.linearized[..] == b.linearized[..] && a.state == b.state
  }

  method FindInBucket<S(==)>(bucket: seq<CacheEntry<S>>, entry: CacheEntry<S>) returns (found: bool)
    ensures found <==> exists j :: 0 <= j < |bucket| && SameEntry(entry, bucket[j])
  {
    for i := 0 to |bucket|
      invariant forall j :: 0 <= j < i ==> !SameEntry(entry, bucket[j])
    {
      var elem := bucket[i];
      var same := Bitset.Equals(entry.linearized, elem.linearized);
      if same && entry.state == elem.state {
        assert SameEntry(entry, bucket[i]);
        return true;
      }
    }
    return false;
  }

  /** The hashed look-up is exact membership in the set of cached pairs. */
  method CacheContains<S(==)>(cache: Cache<S>, entry: CacheEntry<S>, ghost seen: set<(set<nat>, S)>,
                              ghost owned: set<array<bv64>>)
    returns (found: bool)
    requires CacheHolds(cache, seen, entry.linearized.Length, owned)
    ensures found <==> PairOf(entry) in seen
  {
    var bits := Bitset.Hash(entry.linearized);
    var hash := Digest(bits);
    found := FindInBucket(Bucket(cache, hash), entry);
    BucketDecides(cache, seen, owned, entry, hash);
  }

  lemma CachedLonger<S>(cache: Cache<S>, seen: set<(set<nat>, S)>, len: nat, owned: set<array<bv64>>,
                        e: CacheEntry<S>, h: Digest, g: Digest, i: int)
    requires CacheHolds(cache, seen, len, owned)
    requires e.linearized.Length == len && h == Digest(Bitset.HashOf(e.linearized[..]))
    requires InCache(cache[h := Bucket(cache, h) + [e]], g, i)
    ensures CachedWell(cache[h := Bucket(cache, h) + [e]][g][i], g, seen + {PairOf(e)}, len, owned + {e.linearized})
  {
    hide Bitset.Members, Bitset.HashOf;
    BucketAppend(cache, e, h, g, i);
    if InCache(cache, g, i) {
      assert CachedWell(cache[g][i], g, seen, len, owned);
    }
  }

  lemma SeenCached<S>(cache: Cache<S>, seen: set<(set<nat>, S)>, len: nat, owned: set<array<bv64>>,
                      e: CacheEntry<S>, h: Digest, p: (set<nat>, S))
    requires CacheHolds(cache, seen, len, owned) && p in seen + {PairOf(e)}
    ensures var cache' := cache[h := Bucket(cache, h) + [e]];
      exists g, i :: InCache(cache', g, i) && PairIs(cache'[g][i], p, owned + {e.linearized})
  {
    hide Bitset.Members, Bitset.HashOf;
    var cache', owned' := cache[h := Bucket(cache, h) + [e]], owned + {e.linearized};
    if p in seen {
      var g, i :| InCache(cache, g, i) && PairIs(cache[g][i], p, owned);
      BucketAppend(cache, e, h, g, i);
      assert InCache(cache', g, i) && PairIs(cache'[g][i], p, owned');
    } else {
      var i := |Bucket(cache, h)|;
      BucketAppend(cache, e, h, h, i);
      assert InCache(cache', h, i) && PairIs(cache'[h][i], p, owned');
    }
  }

  /** Appending to the bucket of its hash adds the pair to the set. */
  lemma CacheInsert<S>(cache: Cache<S>, seen: set<(set<nat>, S)>, len: nat, owned: set<array<bv64>>,
                       e: CacheEntry<S>, h: Digest)
    requires CacheHolds(cache, seen, len, owned)
    requires e.linearized.Length == len && h == Digest(Bitset.HashOf(e.linearized[..]))
    ensures CacheHolds(cache[h := Bucket(cache, h) + [e]], seen + {PairOf(e)}, len, owned + {e.linearized})
  {
    hide CachedWell, PairIs, PairOf, Bucket, Bitset.Members, Bitset.HashOf;
    var cache' := cache[h := Bucket(cache, h) + [e]];
    var seen', owned' := seen + {PairOf(e)}, owned + {e.linearized};
    forall g, i | InCache(cache', g, i) ensures CachedWell(cache'[g][i], g, seen', len, owned') {
      CachedLonger(cache, seen, len, owned, e, h, g, i);
    }
    forall p | p in seen' ensures exists g, i :: InCache(cache', g, i) && PairIs(cache'[g][i], p, owned') {
      SeenCached(cache, seen, len, owned, e, h, p);
    }
  }

  // ----- the list during the search

  /** Positions of the entries of the operations in `done`. */
  ghost function Out<V>(nodes: seq<Node<V>>, done: set<nat>): set<int> {
    set k: int | 1 <= k < |nodes| && nodes[k].id in done
  }

  /** ... and of the first `k` operations of a stack. */
  ghost function OutAt<V>(nodes: seq<Node<V>>, path: seq<nat>, k: int): set<int>
    requires 0 <= k <= |path|
  {
    Out(nodes, Ids(path[..k]))
  }

  lemma OutAtAppend<V>(nodes: seq<Node<V>>, path: seq<nat>, id: nat)
    ensures forall k :: 0 <= k <= |path| ==> OutAt(nodes, path + [id], k) == OutAt(nodes, path, k)
    ensures OutAt(nodes, path, |path|) == Out(nodes, Ids(path))
    ensures Ids(path + [id]) == Ids(path) + {id}
  {
    var path' := path + [id];
    forall k | 0 <= k <= |path| ensures OutAt(nodes, path', k) == OutAt(nodes, path, k) {
      assert path'[..k] == path[..k];
    }
    assert path[..|path|] == path;
    IdsPrefix(path', |path|);
    assert path'[..|path|] == path && path'[..|path'|] == path';
  }

  lemma OutInsert<V>(nodes: seq<Node<V>>, ops: seq<Operation<V>>, done: set<nat>, id: nat)
    requires Represents(nodes, ops) && id < |ops| && id !in done
    ensures Out(nodes, done + {id}) == Out(nodes, done) + {ops[id].call} + {ops[id].ret}
    ensures ops[id].call !in Out(nodes, done) && ops[id].ret !in Out(nodes, done)
  {
    assert RepresentsOp(nodes, ops[id], id);
  }

  lemma NextRemaining<V>(nodes: seq<Node<V>>, ops: seq<Operation<V>>, done: set<nat>, k: int)
    requires Represents(nodes, ops) && 0 <= k < |nodes|
    ensures NothingBetween(ops, done, k, Next(|nodes|, Out(nodes, done), k))
    ensures k == 0 ==> First(ops, done, Next(|nodes|, Out(nodes, done), 0))
  {
    var to := Next(|nodes|, Out(nodes, done), k);
    forall i: nat | i < |ops| && i !in done
      ensures !(k < ops[i].call < to) && !(k < ops[i].ret < to) && 0 < ops[i].call
    {
      assert RepresentsOp(nodes, ops[i], i);
      assert ops[i].call !in Out(nodes, done) && ops[i].ret !in Out(nodes, done);
    }
  }

  /** The remaining entry at `k` is a call or a return of its operation. */
  lemma EntryAt<S, V>(nodes: seq<Node<V>>, ops: seq<Operation<V>>, st: Search<S>, k: int)
    requires Represents(nodes, ops) && 1 <= k < |nodes| && k !in Out(nodes, Ids(st.path)) && st.cursor == k
    ensures if nodes[k].mate != null then AtCall(ops, st, nodes[k].id) else AtReturn(ops, st, nodes[k].id)
  {
    var id := nodes[k].id;
    assert RepresentsOp(nodes, ops[id], id);
  }

  /** The `next` and `prev` of every node. */
  ghost function Pointers<V>(nodes: seq<Node<V>>): (ptrs: seq<(Node?<V>, Node?<V>)>)
    reads nodes
    ensures |ptrs| == |nodes|
    ensures forall k :: 0 <= k < |nodes| ==> ptrs[k] == (nodes[k].next, nodes[k].prev)
  {
    seq(|nodes|, k requires 0 <= k < |nodes| reads nodes => (nodes[k].next, nodes[k].prev))
  }

  /** Both entries of `op` remember their places in the list without `out`. */
  ghost predicate Frozen<V>(nodes: seq<Node<V>>, ptrs: seq<(Node?<V>, Node?<V>)>, out: set<int>, op: Operation<V>)
    requires |ptrs| == |nodes|
  {
    && 1 <= op.call < op.ret < |nodes|
    && Points(nodes, out, op.call, ptrs[op.call].0, ptrs[op.call].1)
    && Points(nodes, out + {op.call}, op.ret, ptrs[op.ret].0, ptrs[op.ret].1)
  }

  ghost predicate AllFrozen<V>(nodes: seq<Node<V>>, ptrs: seq<(Node?<V>, Node?<V>)>, ops: seq<Operation<V>>,
                               path: seq<nat>)
    requires |ptrs| == |nodes| && forall k :: 0 <= k < |path| ==> path[k] < |ops|
  {
    forall k :: 0 <= k < |path| ==> Frozen(nodes, ptrs, OutAt(nodes, path, k), ops[path[k]])
  }

  /** The list is the original one without both entries of every operation on
      the stack, and each of those remembers the place it was taken from. */
  ghost predicate ListInv<V>(nodes: seq<Node<V>>, ops: seq<Operation<V>>, path: seq<nat>)
    reads nodes
  {
    && Represents(nodes, ops)
    && Distinct(path) && (forall k :: 0 <= k < |path| ==> path[k] < |ops|)
    && Linked(nodes, Out(nodes, Ids(path)))
    && AllFrozen(nodes, Pointers(nodes), ops, path)
  }

  /** Entries off the list do not move while others are linked. */
  lemma FrozenKept<V>(nodes: seq<Node<V>>, was: seq<(Node?<V>, Node?<V>)>, now: seq<(Node?<V>, Node?<V>)>,
                      ops: seq<Operation<V>>, path: seq<nat>, done: set<nat>)
    requires Represents(nodes, ops) && |was| == |now| == |nodes|
    requires forall k :: 0 <= k < |path| ==> path[k] < |ops| && path[k] in done
    requires AllFrozen(nodes, was, ops, path)
    requires forall k :: 0 <= k < |nodes| && k in Out(nodes, done) ==> now[k] == was[k]
    ensures AllFrozen(nodes, now, ops, path)
  {
    hide Frozen, Represents, Out, OutAt, Points;
    forall k | 0 <= k < |path| ensures Frozen(nodes, now, OutAt(nodes, path, k), ops[path[k]]) {
      PlacesOut(nodes, ops, path[k], done);
      assert Frozen(nodes, was, OutAt(nodes, path, k), ops[path[k]]);
      OneFrozenKept(nodes, was, now, OutAt(nodes, path, k), ops[path[k]]);
    }
  }

  lemma PlacesOut<V>(nodes: seq<Node<V>>, ops: seq<Operation<V>>, id: nat, done: set<nat>)
    requires Represents(nodes, ops) && id < |ops| && id in done
    ensures 1 <= ops[id].call < ops[id].ret < |nodes|
    ensures ops[id].call in Out(nodes, done) && ops[id].ret in Out(nodes, done)
  {
    assert RepresentsOp(nodes, ops[id], id);
  }

  lemma OneFrozenKept<V>(nodes: seq<Node<V>>, was: seq<(Node?<V>, Node?<V>)>, now: seq<(Node?<V>, Node?<V>)>,
                         out: set<int>, op: Operation<V>)
    requires |was| == |now| == |nodes| && Frozen(nodes, was, out, op)
    requires now[op.call] == was[op.call] && now[op.ret] == was[op.ret]
    ensures Frozen(nodes, now, out, op)
  {
    hide Points;
  }

  lemma FrozenMore<V>(nodes: seq<Node<V>>, ptrs: seq<(Node?<V>, Node?<V>)>, ops: seq<Operation<V>>, path: seq<nat>,
                      id: nat)
    requires |ptrs| == |nodes| && id < |ops| && forall k :: 0 <= k < |path| ==> path[k] < |ops|
    ensures AllFrozen(nodes, ptrs, ops, path + [id]) <==>
            AllFrozen(nodes, ptrs, ops, path) && Frozen(nodes, ptrs, Out(nodes, Ids(path)), ops[id])
  {
    OutAtAppend(nodes, path, id);
    var path' := path + [id];
    if AllFrozen(nodes, ptrs, ops, path') {
      assert Frozen(nodes, ptrs, OutAt(nodes, path', |path|), ops[path'[|path|]]);
      forall k | 0 <= k < |path| ensures Frozen(nodes, ptrs, OutAt(nodes, path, k), ops[path[k]]) {
        assert Frozen(nodes, ptrs, OutAt(nodes, path', k), ops[path'[k]]);
      }
    }
  }

  lemma OpPlace<V>(nodes: seq<Node<V>>, ops: seq<Operation<V>>, id: nat)
    requires Represents(nodes, ops) && id < |ops|
    ensures 0 < ops[id].call < ops[id].ret < |nodes| && nodes[ops[id].call].mate == nodes[ops[id].ret]
  {
    assert RepresentsOp(nodes, ops[id], id);
  }

  lemma HeadStays<V>(nodes: seq<Node<V>>, done: set<nat>)
    ensures 0 !in Out(nodes, done)
  {
  }

  lemma AppendNew(path: seq<nat>, id: nat)
    requires Distinct(path) && id !in Ids(path)
    ensures Distinct(path + [id])
  {
    forall i | 0 <= i < |path| ensures path[i] != id {
      assert path[i] in Ids(path);
    }
  }

  lemma LastIsNew(path: seq<nat>, id: nat)
    requires Distinct(path + [id])
    ensures id !in Ids(path) && Distinct(path)
  {
    var path' := path + [id];
    forall i, j | 0 <= i < j < |path| ensures path[i] != path[j] {
      assert path'[i] != path'[j];
    }
    forall i | 0 <= i < |path| ensures path[i] != id {
      assert path'[i] != path'[|path|];
    }
  }

  method LiftEntry<V>(ghost nodes: seq<Node<V>>, ghost ops: seq<Operation<V>>, ghost path: seq<nat>, entry: Node<V>,
                      ghost id: nat)
    requires ListInv(nodes, ops, path)
    requires id < |ops| && id !in Ids(path) && 0 <= ops[id].call < |nodes| && entry == nodes[ops[id].call]
    modifies nodes
    ensures ListInv(nodes, ops, path + [id])
  {
    hide AllFrozen, Frozen, Out, OutAt, Ids, Represents, Distinct, Linked, LinkedAt;
    ghost var out, c, r := Out(nodes, Ids(path)), ops[id].call, ops[id].ret;
    ghost var was := Pointers(nodes);
    OutInsert(nodes, ops, Ids(path), id);
    OpPlace(nodes, ops, id);
    HeadStays(nodes, Ids(path));
    Lift(nodes, out, entry, c, r);
    ghost var now := Pointers(nodes);
    OutAtAppend(nodes, path, id);
    assert AllFrozen(nodes, now, ops, path + [id]) by {
      assert forall k :: 0 <= k < |path| ==> path[k] in Ids(path) by { InIds(path); }
      assert forall k :: 0 <= k < |nodes| && k in out ==> Untouched(nodes, k);
      FrozenKept(nodes, was, now, ops, path, Ids(path));
      FrozenNow(nodes, out, ops[id]);
      FrozenMore(nodes, now, ops, path, id);
    }
    AppendNew(path, id);
  }

  lemma InIds(path: seq<nat>)
    ensures forall k :: 0 <= k < |path| ==> path[k] in Ids(path)
  {
  }

  lemma FrozenNow<V>(nodes: seq<Node<V>>, out: set<int>, op: Operation<V>)
    requires 1 <= op.call < op.ret < |nodes|
    ensures Frozen(nodes, Pointers(nodes), out, op) <==>
      LinkedAt(nodes, out, op.call) && LinkedAt(nodes, out + {op.call}, op.ret)
  {
  }

  method UnliftEntry<V>(ghost nodes: seq<Node<V>>, ghost ops: seq<Operation<V>>, ghost path: seq<nat>,
                        entry: Node<V>, ghost id: nat)
    requires ListInv(nodes, ops, path + [id]) && id < |ops|
    requires 0 <= ops[id].call < |nodes| && entry == nodes[ops[id].call]
    modifies nodes
    ensures ListInv(nodes, ops, path)
  {
    hide AllFrozen, Frozen, Out, OutAt, Ids, Represents, Distinct, Linked, LinkedAt;
    ghost var out, c, r := Out(nodes, Ids(path)), ops[id].call, ops[id].ret;
    ghost var was := Pointers(nodes);
    LastIsNew(path, id);
    assert forall k :: 0 <= k < |path| ==> path[k] == (path + [id])[k];
    OutAtAppend(nodes, path, id);
    OutInsert(nodes, ops, Ids(path), id);
    OpPlace(nodes, ops, id);
    HeadStays(nodes, Ids(path));
    FrozenMore(nodes, was, ops, path, id);
    FrozenNow(nodes, out, ops[id]);
    Unlift(nodes, out, entry, c, r);
    ghost var now := Pointers(nodes);
    assert AllFrozen(nodes, now, ops, path) by {
      assert forall k :: 0 <= k < |path| ==> path[k] in Ids(path) by { InIds(path); }
      assert forall k :: 0 <= k < |nodes| && k in out ==> Untouched(nodes, k);
      FrozenKept(nodes, was, now, ops, path, Ids(path));
    }
  }

  // ----- the cursor

  /** The cursor stands on the remaining entry at `k`. */
  ghost predicate AtCursor<V>(nodes: seq<Node<V>>, path: seq<nat>, entry: Node?<V>, k: int) {
    1 <= k < |nodes| && k !in Out(nodes, Ids(path)) && entry == nodes[k]
  }

  ghost function NextPos<V>(nodes: seq<Node<V>>, path: seq<nat>, k: int): (r: int)
    requires 0 <= k < |nodes|
    ensures k < r <= |nodes|
  {
    Next(|nodes|, Out(nodes, Ids(path)), k)
  }

  /** Following `next` goes to the next remaining entry. */
  lemma FollowNext<V>(nodes: seq<Node<V>>, ops: seq<Operation<V>>, path: seq<nat>, k: int)
    requires ListInv(nodes, ops, path) && 0 <= k < |nodes| && (k == 0 || k !in Out(nodes, Ids(path)))
    ensures var to := NextPos(nodes, path, k);
      && nodes[k].next == NodeAt(nodes, to)
      && (to < |nodes| ==> AtCursor(nodes, path, nodes[to], to))
  {
    HeadStays(nodes, Ids(path));
    assert LinkedAt(nodes, Out(nodes, Ids(path)), k);
  }

  /** After a call there is always an entry left, at the latest its return. */
  lemma CallHasNext<S, V>(nodes: seq<Node<V>>, ops: seq<Operation<V>>, st: Search<S>, id: nat)
    requires Represents(nodes, ops) && AtCall(ops, st, id) && 0 <= st.cursor < |nodes|
    ensures NextPos(nodes, st.path, st.cursor) < |nodes|
  {
    assert RepresentsOp(nodes, ops[id], id);
    assert ops[id].ret !in Out(nodes, Ids(st.path));
  }

  lemma NothingLeft<V>(nodes: seq<Node<V>>, ops: seq<Operation<V>>, path: seq<nat>)
    requires Represents(nodes, ops) && NextPos(nodes, path, 0) == |nodes|
    ensures forall i: nat :: i < |ops| ==> i in Ids(path)
  {
    forall i: nat | i < |ops| ensures i in Ids(path) {
      assert RepresentsOp(nodes, ops[i], i);
      assert ops[i].call in Out(nodes, Ids(path));
    }
  }

  lemma RepresentsPositioned<V>(nodes: seq<Node<V>>, ops: seq<Operation<V>>)
    requires Represents(nodes, ops)
    ensures Positioned(ops)
  {
    forall i, j | 0 <= i < |ops| && 0 <= j < |ops|
      ensures ops[i].ret != ops[j].call && 0 <= ops[i].call < ops[i].ret
      ensures i != j ==> ops[i].call != ops[j].call && ops[i].ret != ops[j].ret
    {
      assert RepresentsOp(nodes, ops[i], i) && RepresentsOp(nodes, ops[j], j);
    }
  }

  // ----- the search

  datatype CallsEntry<S, V> = CallsEntry(entry: Node<V>, state: S)

  /** The `calls` stack and the current state, as the search state has them. */
  ghost predicate CallsMatch<S, V>(nodes: seq<Node<V>>, ops: seq<Operation<V>>, calls: seq<CallsEntry<S, V>>,
                                   state: S, st: Search<S>)
  {
    && Shape(ops, st) && |calls| == |st.path| && state == st.states[|st.path|]
    && forall k :: 0 <= k < |calls| ==> CallMatches(nodes, ops, calls[k], st.path[k], st.states[k])
  }

  ghost predicate CallMatches<S, V>(nodes: seq<Node<V>>, ops: seq<Operation<V>>, c: CallsEntry<S, V>, id: nat, s: S)
    requires id < |ops|
  {
    0 <= ops[id].call < |nodes| && c.entry == nodes[ops[id].call] && c.state == s
  }

  method Length<V>(n: Node?<V>, ghost nodes: seq<Node<V>>) returns (l: nat)
    requires Linked(nodes, {}) && n == NodeAt(nodes, 0)
    ensures l == |nodes|
  {
    l := 0;
    var at := n;
    while at != null
      invariant l <= |nodes| && at == NodeAt(nodes, l)
      decreases |nodes| - l
    {
      assert LinkedAt(nodes, {}, l);
      NextNone(|nodes|, l);
      at := at.next;
      l := l + 1;
    }
  }

  lemma SkipTo<S, V>(m: Model<S, V>, nodes: seq<Node<V>>, ops: seq<Operation<V>>, st: Search<S>, id: nat)
    requires Represents(nodes, ops) && Inv(m, ops, st) && AtCall(ops, st, id) && 0 <= st.cursor < |nodes|
    requires var (ok, s') := StepOp(m, Current(ops, st), ops[id]);
             ok ==> (Ids(st.path) + {id}, s') in st.seen
    ensures Inv(m, ops, st.(cursor := NextPos(nodes, st.path, st.cursor)))
  {
    NextRemaining(nodes, ops, Ids(st.path), st.cursor);
    SkipCall(m, ops, st, id, NextPos(nodes, st.path, st.cursor));
  }

  ghost function Pushed<S, V>(m: Model<S, V>, nodes: seq<Node<V>>, ops: seq<Operation<V>>, st: Search<S>,
                              id: nat): Search<S>
    requires Shape(ops, st) && id < |ops| && nodes != []
  {
    Push(m, ops, st, id, NextPos(nodes, st.path + [id], 0))
  }

  lemma PushTo<S, V>(m: Model<S, V>, nodes: seq<Node<V>>, ops: seq<Operation<V>>, st: Search<S>, id: nat)
    requires Represents(nodes, ops) && Inv(m, ops, st) && AtCall(ops, st, id)
    requires StepOp(m, Current(ops, st), ops[id]).0
    ensures Inv(m, ops, Pushed(m, nodes, ops, st, id))
    ensures Ids(st.path + [id]) == Ids(st.path) + {id}
  {
    OutAtAppend(nodes, st.path, id);
    NextRemaining(nodes, ops, Ids(st.path + [id]), 0);
    PushInv(m, ops, st, id, NextPos(nodes, st.path + [id], 0));
  }

  lemma PushedShrinks<S, V>(m: Model<S, V>, nodes: seq<Node<V>>, ops: seq<Operation<V>>, st: Search<S>, id: nat)
    requires Represents(nodes, ops) && Inv(m, ops, st) && AtCall(ops, st, id)
    requires var (ok, s') := StepOp(m, Current(ops, st), ops[id]); ok && (Ids(st.path) + {id}, s') !in st.seen
    ensures |Pushed(m, nodes, ops, st, id).seen| > |st.seen|
  {
    var p := (Ids(st.path) + {id}, StepOp(m, Current(ops, st), ops[id]).1);
    assert st.seen + {p} - {p} == st.seen;
  }

  lemma SeenBounded<S, V>(m: Model<S, V>, ops: seq<Operation<V>>, st: Search<S>)
    requires Inv(m, ops, st)
    ensures |st.seen| <= |Reachable(m, ops, |ops|)|
  {
    SubsetSize(st.seen, Reachable(m, ops, |ops|));
  }

  ghost function Popped<S, V>(nodes: seq<Node<V>>, ops: seq<Operation<V>>, st: Search<S>): Search<S>
    requires Shape(ops, st) && st.path != []
    requires var id := st.path[|st.path| - 1]; 0 <= ops[id].call < |nodes|
  {
    var n := |st.path| - 1;
    Pop(ops, st, NextPos(nodes, st.path[..n], ops[st.path[n]].call))
  }

  lemma PopTo<S, V>(m: Model<S, V>, nodes: seq<Node<V>>, ops: seq<Operation<V>>, st: Search<S>, ret: nat)
    requires Represents(nodes, ops) && Inv(m, ops, st) && AtReturn(ops, st, ret) && st.path != []
    requires var id := st.path[|st.path| - 1]; 0 <= ops[id].call < |nodes|
    ensures Inv(m, ops, Popped(nodes, ops, st))
    ensures var n := |st.path| - 1; Ids(st.path) - {st.path[n]} == Ids(st.path[..n])
    ensures var n := |st.path| - 1; st.path == st.path[..n] + [st.path[n]] && st.path[n] !in Ids(st.path[..n])
  {
    var n := |st.path| - 1;
    NextRemaining(nodes, ops, Ids(st.path[..n]), ops[st.path[n]].call);
    PopInv(m, ops, st, ret, NextPos(nodes, st.path[..n], ops[st.path[n]].call));
    assert st.path == st.path[..n] + [st.path[n]];
    LastIsNew(st.path[..n], st.path[n]);
  }

  lemma StartTo<S, V>(m: Model<S, V>, nodes: seq<Node<V>>, ops: seq<Operation<V>>)
    requires Represents(nodes, ops)
    ensures Inv(m, ops, Start(m).(cursor := NextPos(nodes, [], 0)))
  {
    RepresentsPositioned(nodes, ops);
    StartInv(m, ops);
    assert Ids([]) == {};
    NextRemaining(nodes, ops, {}, 0);
  }

  lemma ListStart<V>(nodes: seq<Node<V>>, ops: seq<Operation<V>>)
    requires Represents(nodes, ops) && Linked(nodes, {})
    ensures ListInv(nodes, ops, [])
  {
    assert Ids([]) == {};
    assert Out(nodes, {}) == {};
  }

  lemma LinkedDistinct<V>(nodes: seq<Node<V>>)
    requires Linked(nodes, {})
    ensures Distinct(nodes)
  {
  }

  lemma CacheStart<S>(len: nat)
    ensures CacheHolds<S>(map[], {}, len, {})
  {
  }

  lemma NoIds()
    ensures Ids([]) == {}
  {
  }

  lemma InvShape<S, V>(m: Model<S, V>, ops: seq<Operation<V>>, st: Search<S>)
    requires Inv(m, ops, st)
    ensures Shape(ops, st)
  {
  }

  lemma ListRepresents<V>(nodes: seq<Node<V>>, ops: seq<Operation<V>>, path: seq<nat>)
    requires ListInv(nodes, ops, path)
    ensures Represents(nodes, ops) && |nodes| == 2 * |ops| + 1
  {
  }

  /** At a call, the node and its mate hold the operation's input and output. */
  lemma CallValues<S, V>(nodes: seq<Node<V>>, ops: seq<Operation<V>>, st: Search<S>, k: int)
    requires Represents(nodes, ops) && 0 <= k < |nodes| && nodes[k].mate != null
    requires AtCursor(nodes, st.path, nodes[k], k) && st.cursor == k
    ensures AtCall(ops, st, nodes[k].id)
    ensures var op := ops[nodes[k].id]; op.input == nodes[k].value && op.output == nodes[k].mate.value
  {
    EntryAt(nodes, ops, st, k);
    assert RepresentsOp(nodes, ops[nodes[k].id], nodes[k].id);
  }

  lemma CallsStart<S, V>(m: Model<S, V>, nodes: seq<Node<V>>, ops: seq<Operation<V>>, to: int)
    ensures CallsMatch(nodes, ops, [], m.init, Start(m).(cursor := to))
  {
  }

  lemma CallsPush<S, V>(m: Model<S, V>, nodes: seq<Node<V>>, ops: seq<Operation<V>>, calls: seq<CallsEntry<S, V>>,
                        entry: Node<V>, state: S, state': S, st: Search<S>, id: nat)
    requires CallsMatch(nodes, ops, calls, state, st) && id < |ops|
    requires 0 <= ops[id].call < |nodes| && entry == nodes[ops[id].call]
    requires state' == StepOp(m, state, ops[id]).1 && Shape(ops, Pushed(m, nodes, ops, st, id))
    ensures CallsMatch(nodes, ops, calls + [CallsEntry(entry, state)], state', Pushed(m, nodes, ops, st, id))
  {
  }

  lemma CallsState<S, V>(nodes: seq<Node<V>>, ops: seq<Operation<V>>, calls: seq<CallsEntry<S, V>>, state: S,
                         st: Search<S>)
    requires CallsMatch(nodes, ops, calls, state, st)
    ensures Shape(ops, st) && state == Current(ops, st) && |calls| == |st.path|
  {
  }

  lemma CallsPop<S, V>(nodes: seq<Node<V>>, ops: seq<Operation<V>>, calls: seq<CallsEntry<S, V>>, state: S,
                       st: Search<S>)
    requires Represents(nodes, ops) && CallsMatch(nodes, ops, calls, state, st) && calls != []
    ensures var top, id := calls[|calls| - 1], st.path[|st.path| - 1];
      && 0 <= ops[id].call < |nodes| && top.entry == nodes[ops[id].call] && top.entry.id == id
      && (Shape(ops, Popped(nodes, ops, st)) ==>
            CallsMatch(nodes, ops, calls[..|calls| - 1], top.state, Popped(nodes, ops, st)))
  {
    var id := st.path[|st.path| - 1];
    assert CallMatches(nodes, ops, calls[|calls| - 1], id, st.states[|calls| - 1]);
    assert RepresentsOp(nodes, ops[id], id);
  }

  /** Look up the pair reached by linearizing `id`, and cache it if it is new. */
  method Remember<S(==)>(cache: Cache<S>, linearized: array<bv64>, id: nat, newState: S,
                         ghost seen: set<(set<nat>, S)>, ghost owned: set<array<bv64>>)
    returns (contained: bool, cache': Cache<S>, ghost owned': set<array<bv64>>)
    requires CacheHolds(cache, seen, linearized.Length, owned) && id < 64 * linearized.Length
    ensures owned <= owned' && fresh(owned' - owned)
    ensures var pair := (Bitset.Members(linearized[..]) + {id}, newState);
      && contained == (pair in seen)
      && CacheHolds(cache', seen + {pair}, linearized.Length, owned')
  {
    hide CacheHolds, Bitset.Members, Bitset.HashOf;
    var newLinearized := Bitset.Clone(linearized);
    Bitset.Set(newLinearized, id);
    var newCacheEntry := CacheEntry(newLinearized, newState);
    contained := CacheContains(cache, newCacheEntry, seen, owned);
    cache', owned' := cache, owned;
    if !contained {
      var bits := Bitset.Hash(newLinearized);
      var hash := Digest(bits);
      CacheInsert(cache, seen, linearized.Length, owned, newCacheEntry, hash);
      cache' := cache[hash := Bucket(cache, hash) + [newCacheEntry]];
      owned' := owned + {newLinearized};
    } else {
      assert seen + {PairOf(newCacheEntry)} == seen;
    }
  }

  /** List, `calls`, current state and bit set all agree with the search state. */
  ghost predicate Agree<S, V>(nodes: seq<Node<V>>, ops: seq<Operation<V>>, calls: seq<CallsEntry<S, V>>, state: S,
                              linearized: array<bv64>, st: Search<S>)
    reads nodes, linearized
  {
    && ListInv(nodes, ops, st.path) && CallsMatch(nodes, ops, calls, state, st)
    && Bitset.Members(linearized[..]) == Ids(st.path) && |ops| <= 64 * linearized.Length
  }

  lemma AgreeMeans<S, V>(nodes: seq<Node<V>>, ops: seq<Operation<V>>, calls: seq<CallsEntry<S, V>>, state: S,
                         linearized: array<bv64>, st: Search<S>)
    requires Agree(nodes, ops, calls, state, linearized, st)
    ensures ListInv(nodes, ops, st.path) && CallsMatch(nodes, ops, calls, state, st)
    ensures Bitset.Members(linearized[..]) == Ids(st.path) && |ops| <= 64 * linearized.Length
    ensures Represents(nodes, ops) && Shape(ops, st) && state == Current(ops, st) && |calls| == |st.path|
  {
    hide CallsMatch, Represents, Bitset.Members, Ids, Out, Linked, AllFrozen, Distinct;
    ListRepresents(nodes, ops, st.path);
    CallsState(nodes, ops, calls, state, st);
  }

  /** Linearize the candidate under the cursor. */
  method PushCall<S, V>(ghost m: Model<S, V>, ghost nodes: seq<Node<V>>, ghost ops: seq<Operation<V>>,
                        ghost st: Search<S>, ghost id: nat,
                        head: Node<V>, entry: Node<V>, calls: seq<CallsEntry<S, V>>,
                        state: S, newState: S, linearized: array<bv64>)
    returns (calls': seq<CallsEntry<S, V>>, entry': Node?<V>)
    requires Agree(nodes, ops, calls, state, linearized, st) && Inv(m, ops, st) && |nodes| > 0 && head == nodes[0]
    requires AtCall(ops, st, id) && AtCursor(nodes, st.path, entry, st.cursor) && entry.id == id
    requires StepOp(m, state, ops[id]) == (true, newState)
    modifies nodes, linearized
    ensures var st' := Pushed(m, nodes, ops, st, id);
      && Agree(nodes, ops, calls', newState, linearized, st') && Inv(m, ops, st')
      && head.next == entry' && (entry' != null ==> AtCursor(nodes, st'.path, entry', st'.cursor))
  {
    hide Inv, ListInv, CallsMatch, Represents, Bitset.Members, Ids, Out, Reachable;
    ListRepresents(nodes, ops, st.path);
    CallsState(nodes, ops, calls, state, st);
    InvShape(m, ops, st);
    PushTo(m, nodes, ops, st, id);
    InvShape(m, ops, Pushed(m, nodes, ops, st, id));
    CallsPush(m, nodes, ops, calls, entry, state, newState, st, id);
    calls' := calls + [CallsEntry(entry, state)];
    Bitset.Set(linearized, entry.id);
    LiftEntry(nodes, ops, st.path, entry, id);
    entry' := head.next;
    FollowNext(nodes, ops, st.path + [id], 0);
  }

  /** Give up the last linearized call and go on after it. */
  method PopCall<S, V>(ghost m: Model<S, V>, ghost nodes: seq<Node<V>>, ghost ops: seq<Operation<V>>,
                       ghost st: Search<S>, ghost ret: nat,
                       calls: seq<CallsEntry<S, V>>, ghost state: S, linearized: array<bv64>)
    returns (calls': seq<CallsEntry<S, V>>, state': S, entry': Node?<V>)
    requires Agree(nodes, ops, calls, state, linearized, st) && Inv(m, ops, st) && |calls| > 0
    requires AtReturn(ops, st, ret)
    modifies nodes, linearized
    ensures Shape(ops, st) && st.path != [] && 0 <= ops[st.path[|st.path| - 1]].call < |nodes|
    ensures var st' := Popped(nodes, ops, st);
      && Agree(nodes, ops, calls', state', linearized, st') && Inv(m, ops, st')
      && AtCursor(nodes, st'.path, entry', st'.cursor)
  {
    hide Inv, ListInv, CallsMatch, Represents, Bitset.Members, Ids, Out, Reachable;
    ListRepresents(nodes, ops, st.path);
    InvShape(m, ops, st);
    CallsState(nodes, ops, calls, state, st);
    ghost var n := |st.path| - 1;
    ghost var last := st.path[n];
    var callsTop := calls[|calls| - 1];
    CallsPop(nodes, ops, calls, state, st);
    PopTo(m, nodes, ops, st, ret);
    InvShape(m, ops, Popped(nodes, ops, st));
    entry' := callsTop.entry;
    state' := callsTop.state;
    Bitset.Clear(linearized, entry'.id);
    calls' := calls[..|calls| - 1];
    UnliftEntry(nodes, ops, st.path[..n], entry', last);
    assert ops[last].call !in Out(nodes, Ids(st.path[..n])) by { OutInsert(nodes, ops, Ids(st.path[..n]), last); }
    FollowNext(nodes, ops, st.path[..n], ops[last].call);
    CallHasNext(nodes, ops, Popped(nodes, ops, st).(cursor := ops[last].call), last);
    entry' := entry'.next;
  }

  lemma AgreeMoves<S, V>(nodes: seq<Node<V>>, ops: seq<Operation<V>>, calls: seq<CallsEntry<S, V>>, state: S,
                         linearized: array<bv64>, st: Search<S>, to: int)
    requires Agree(nodes, ops, calls, state, linearized, st)
    ensures Agree(nodes, ops, calls, state, linearized, st.(cursor := to))
  {
    hide ListInv, Bitset.Members, Ids;
    forall k | 0 <= k < |calls| ensures CallMatches(nodes, ops, calls[k], st.path[k], st.states[k]) {}
  }

  /** The loop of `checkSingle`. */
  method SearchFrom<S(==), V>(model: Model<S, V>, head: Node<V>, subhistory: Node?<V>, linearized: array<bv64>,
                              ghost nodes: seq<Node<V>>, ghost ops: seq<Operation<V>>)
    returns (ok: bool)
    requires |nodes| > 0 && nodes[0] == head && head.next == subhistory
    requires Agree(nodes, ops, [], model.init, linearized, Start(model).(cursor := NextPos(nodes, [], 0)))
    modifies nodes, linearized
    ensures ok <==> Linearizable(model, ops)
  {
    hide Represents, Linearizable, Inv, ListInv, Agree, Linked, Distinct;
    hide CacheHolds, Out, Ids, Bitset.Members, Bitset.HashOf, Reachable, NextPos, CallsMatch;
    var cache: Cache<S> := map[];
    var calls: seq<CallsEntry<S, V>> := [];
    var state := model.init;
    var entry := subhistory;
    ghost var owned: set<array<bv64>>, st := {}, Start(model).(cursor := NextPos(nodes, [], 0));
    AgreeMeans(nodes, ops, calls, state, linearized, st);
    StartTo(model, nodes, ops);
    CacheStart<S>(linearized.Length);
    FollowNext(nodes, ops, [], 0);
    while head.next != null
      invariant Inv(model, ops, st) && Agree(nodes, ops, calls, state, linearized, st)
      invariant fresh(owned) && CacheHolds(cache, st.seen, linearized.Length, owned)
      invariant head.next != null ==> AtCursor(nodes, st.path, entry, st.cursor)
      decreases |Reachable(model, ops, |ops|)| - |st.seen|, |st.path|, |nodes| - st.cursor
    {
      AgreeMeans(nodes, ops, calls, state, linearized, st);
      SeenBounded(model, ops, st);
      FollowNext(nodes, ops, st.path, st.cursor);
      ghost var id := entry.id;
      if entry.mate != null {
        var matching := entry.mate;
        CallValues(nodes, ops, st, st.cursor);
        CallHasNext(nodes, ops, st, id);
        var (ok', newState) := model.step(state, entry.value, matching.value);
        var contained := false;
        if ok' {
          contained, cache, owned := Remember(cache, linearized, entry.id, newState, st.seen, owned);
        }
        if ok' && !contained {
          PushedShrinks(model, nodes, ops, st, id);
          calls, entry := PushCall(model, nodes, ops, st, id, head, entry, calls, state, newState, linearized);
          state := newState;
          st := Pushed(model, nodes, ops, st, id);
          SeenBounded(model, ops, st);
        } else {
          SkipTo(model, nodes, ops, st, id);
          AgreeMoves(nodes, ops, calls, state, linearized, st, NextPos(nodes, st.path, st.cursor));
          entry := entry.next;
          st := st.(cursor := NextPos(nodes, st.path, st.cursor));
          assert ok' ==> st.seen + {(Ids(st.path) + {id}, newState)} == st.seen;
        }
      } else {
        EntryAt(nodes, ops, st, st.cursor);
        if |calls| == 0 {
          ExhaustedIsNotLinearizable(model, ops, st, id);
          return false;
        }
        calls, state, entry := PopCall(model, nodes, ops, st, id, calls, state, linearized);
        st := Popped(nodes, ops, st);
      }
    }
    AgreeMeans(nodes, ops, calls, state, linearized, st);
    FollowNext(nodes, ops, st.path, 0);
    NothingLeft(nodes, ops, st.path);
    FoundIsLinearizable(model, ops, st);
    ok := true;
  }

  /** `checkSingle` returns true exactly when the operations recorded by the list
      can be linearized; it always terminates. */
  method CheckSingle<S(==), V(0)>(model: Model<S, V>, subhistory: Node?<V>, ghost es: seq<Entry<V>>,
                                  ghost nodes: seq<Node<V>>)
    returns (ok: bool)
    requires WellFormed(es) && Built(es, nodes, 0)
    requires Linked(nodes, {}) && subhistory == NodeAt(nodes, 0)
    modifies nodes
    ensures ok <==> Linearizable(model, OperationsOf(es))
  {
    hide WellFormed, Built, Linked, Represents, Linearizable, ListInv, OperationsOf;
    hide Out, Ids, Bitset.Members, Bitset.HashOf, NextPos, CallsMatch, Distinct;
    ghost var ops := OperationsOf(es);
    var l := Length(subhistory, nodes);
    var linearized := Bitset.NewBitset(l / 2);
    var nil: V := *;
    var head := new Node(nil, null, 0xFFFF_FFFF_FFFF_FFFF);
    InsertFirst(head, subhistory, nodes);

    ghost var all := [head] + nodes;
    LinkedDistinct(all);
    BuiltRepresents(es, nodes, head);
    ListStart(all, ops);
    ListRepresents(all, ops, []);
    NoIds();
    CallsStart(model, all, ops, NextPos(all, [], 0));
    ok := SearchFrom(model, head, subhistory, linearized, all, ops);
  }
}
