/**
 The doubly linked list of call and return entries that `checkSingle` searches
 (linearizability/linearizability.go:51-69, 109-126, 147-165).

 A list is described by the sequence of all its nodes and the set of positions
 that are currently unlinked.
 */
module LinkedEntries {
  import opened Histories

  datatype Kind = CallEntry | ReturnEntry

  datatype Entry<V> = Entry(kind: Kind, value: V, id: nat, time: int)

  /** A call has a `mate`, the return of the same operation; a return has none. */
  class Node<V> {
    const value: V
    const mate: Node?<V>
    const id: nat
    var next: Node?<V>
    var prev: Node?<V>

    constructor (value: V, mate: Node?<V>, id: nat)
      ensures this.value == value && this.mate == mate && this.id == id
      ensures next == null && prev == null
    {
      this.value, this.mate, this.id := value, mate, id;
      next, prev := null, null;
    }
  }

  // ----- positions still in the list

  /** The first position after `k` that is not in `out`, or `n`. */
  ghost function Next(n: nat, out: set<int>, k: int): (r: int)
    requires -1 <= k < n
    ensures k < r <= n
    ensures r < n ==> r !in out
    ensures forall j :: k < j < r ==> j in out
    decreases n - k
  {
    if k + 1 == n || k + 1 !in out then k + 1 else Next(n, out, k + 1)
  }

  /** The last position before `k` that is not in `out`, or -1. */
  ghost function Prev(out: set<int>, k: int): (r: int)
    requires 0 <= k
    ensures -1 <= r < k
    ensures 0 <= r ==> r !in out
    ensures forall j :: r < j < k ==> j in out
    decreases k
  {
    if k == 0 || k - 1 !in out then k - 1 else Prev(out, k - 1)
  }

  ghost function NodeAt<V>(nodes: seq<Node<V>>, i: int): Node?<V> {
    if 0 <= i < |nodes| then nodes[i] else null
  }

  /** `next` and `prev` are what node `k` must hold with `out` unlinked. */
  ghost predicate Points<V>(nodes: seq<Node<V>>, out: set<int>, k: int, next: Node?<V>, prev: Node?<V>)
    requires 0 <= k < |nodes|
  {
    next == NodeAt(nodes, Next(|nodes|, out, k)) && prev == NodeAt(nodes, Prev(out, k))
  }

  /** Node `k` points at its neighbours among the positions outside `out`. */
  ghost predicate LinkedAt<V>(nodes: seq<Node<V>>, out: set<int>, k: int)
    requires 0 <= k < |nodes|
    reads nodes[k]
  {
    Points(nodes, out, k, nodes[k].next, nodes[k].prev)
  }

  /** The nodes outside `out` form a doubly linked list in their order. */
  ghost predicate Linked<V>(nodes: seq<Node<V>>, out: set<int>)
    reads nodes
  {
    && Distinct(nodes)
    && forall k :: 0 <= k < |nodes| && k !in out ==> LinkedAt(nodes, out, k)
  }

  twostate predicate Untouched<V>(nodes: seq<Node<V>>, k: int)
    requires 0 <= k < |nodes|
    reads nodes[k]
  {
    nodes[k].next == old(nodes[k].next) && nodes[k].prev == old(nodes[k].prev)
  }

  /** Taking `x` out makes its neighbours adjacent and moves no others. */
  lemma NeighboursWithout(n: nat, out: set<int>, x: int, k: int)
    requires 0 <= k < n && 0 <= x < n && x !in out && k !in out && k != x
    ensures Next(n, out + {x}, k) == if Next(n, out, k) == x then Next(n, out, x) else Next(n, out, k)
    ensures Prev(out + {x}, k) == if Prev(out, k) == x then Prev(out, x) else Prev(out, k)
    ensures Next(n, out, k) == x <==> k == Prev(out, x)
    ensures Prev(out, k) == x <==> k == Next(n, out, x)
  {
  }

  /** Point the node at `p` forward to `a` and the node at `q`, if any, back to
      `b`; nothing else moves. */
  method Point<V>(ghost nodes: seq<Node<V>>, left: Node<V>, right: Node?<V>, a: Node?<V>, b: Node<V>, ghost p: int,
                  ghost q: int)
    requires Distinct(nodes) && 0 <= p < |nodes| && 0 <= q <= |nodes|
    requires left == nodes[p] && right == NodeAt(nodes, q)
    modifies nodes
    ensures forall k :: 0 <= k < |nodes| ==> nodes[k].next == if k == p then a else old(nodes[k].next)
    ensures forall k :: 0 <= k < |nodes| ==> nodes[k].prev == if k == q then b else old(nodes[k].prev)
  {
    left.next := a;
    if right != null {
      right.prev := b;
    }
  }

  lemma PointsMeaning<V>(nodes: seq<Node<V>>, out: set<int>, k: int, next: Node?<V>, prev: Node?<V>)
    requires 0 <= k < |nodes|
    ensures Points(nodes, out, k, next, prev) <==>
            next == NodeAt(nodes, Next(|nodes|, out, k)) && prev == NodeAt(nodes, Prev(out, k))
  {
  }

  lemma UnlinkedAt<V>(nodes: seq<Node<V>>, out: set<int>, x: int, k: int, next: Node?<V>, prev: Node?<V>)
    requires 0 <= k < |nodes| && 0 <= x < |nodes| && x !in out && k !in out && k != x
    requires Points(nodes, out, k, next, prev)
    ensures Points(nodes, out + {x}, k,
                   if k == Prev(out, x) then NodeAt(nodes, Next(|nodes|, out, x)) else next,
                   if k == Next(|nodes|, out, x) then NodeAt(nodes, Prev(out, x)) else prev)
  {
    NeighboursWithout(|nodes|, out, x, k);
  }

  lemma RelinkedAt<V>(nodes: seq<Node<V>>, out: set<int>, x: int, k: int, next: Node?<V>, prev: Node?<V>)
    requires 0 <= k < |nodes| && 0 <= x < |nodes| && x !in out && k !in out && k != x
    requires Points(nodes, out + {x}, k, next, prev)
    ensures Points(nodes, out, k,
                   if k == Prev(out, x) then nodes[x] else next,
                   if k == Next(|nodes|, out, x) then nodes[x] else prev)
  {
    NeighboursWithout(|nodes|, out, x, k);
  }

  /** Unlink the node at `x`; it keeps its own pointers. */
  method Unlink<V>(ghost nodes: seq<Node<V>>, ghost out: set<int>, node: Node<V>, ghost x: int)
    requires Linked(nodes, out)
    requires 0 < x < |nodes| && x !in out && 0 !in out && nodes[x] == node
    modifies nodes
    ensures Linked(nodes, out + {x})
    ensures LinkedAt(nodes, out, x)
    ensures forall k :: 0 <= k < |nodes| && k in out + {x} ==> Untouched(nodes, k)
  {
    hide Points, Distinct;
    ghost var n, p, q := |nodes|, Prev(out, x), Next(|nodes|, out, x);
    assert LinkedAt(nodes, out, x);
    PointsMeaning(nodes, out, x, node.next, node.prev);
    Point(nodes, node.prev, node.next, node.next, node.prev, p, q);
    forall k | 0 <= k < n && k !in out + {x} ensures LinkedAt(nodes, out + {x}, k) {
      UnlinkedAt(nodes, out, x, k, old(nodes[k].next), old(nodes[k].prev));
    }
  }

  /** Link the node at `x` back in, at the place its own pointers remember. */
  method Relink<V>(ghost nodes: seq<Node<V>>, ghost out: set<int>, node: Node<V>, ghost x: int)
    requires Linked(nodes, out + {x})
    requires 0 < x < |nodes| && x !in out && 0 !in out && nodes[x] == node
    requires LinkedAt(nodes, out, x)
    modifies nodes
    ensures Linked(nodes, out)
    ensures forall k :: 0 <= k < |nodes| && k in out + {x} ==> Untouched(nodes, k)
  {
    hide Points, Distinct;
    ghost var n, p, q := |nodes|, Prev(out, x), Next(|nodes|, out, x);
    PointsMeaning(nodes, out, x, node.next, node.prev);
    Point(nodes, node.prev, node.next, node, node, p, q);
    forall k | 0 <= k < n && k !in out && k != x ensures LinkedAt(nodes, out, k) {
      RelinkedAt(nodes, out, x, k, old(nodes[k].next), old(nodes[k].prev));
    }
  }

  /** Unlink a call at `c` and its return at `r` (`lift`). */
  method Lift<V>(ghost nodes: seq<Node<V>>, ghost out: set<int>, entry: Node<V>, ghost c: int, ghost r: int)
    requires Linked(nodes, out)
    requires 0 < c < r < |nodes| && c !in out && r !in out && 0 !in out
    requires nodes[c] == entry && nodes[r] == entry.mate
    modifies nodes
    ensures Linked(nodes, out + {c} + {r})
    ensures LinkedAt(nodes, out, c) && LinkedAt(nodes, out + {c}, r)
    ensures forall k :: 0 <= k < |nodes| && k in out ==> Untouched(nodes, k)
  {
    Unlink(nodes, out, entry, c);
    label unlinked:
    Unlink(nodes, out + {c}, entry.mate, r);
    assert Untouched@unlinked(nodes, c);
    forall k | 0 <= k < |nodes| && k in out ensures Untouched(nodes, k) {
      assert Untouched@unlinked(nodes, k);
    }
  }

  /** Undo `Lift`: first the return, then the call (`unlift`). */
  method Unlift<V>(ghost nodes: seq<Node<V>>, ghost out: set<int>, entry: Node<V>, ghost c: int, ghost r: int)
    requires Linked(nodes, out + {c} + {r})
    requires 0 < c < r < |nodes| && c !in out && r !in out && 0 !in out
    requires nodes[c] == entry && nodes[r] == entry.mate
    requires LinkedAt(nodes, out, c) && LinkedAt(nodes, out + {c}, r)
    modifies nodes
    ensures Linked(nodes, out)
    ensures forall k :: 0 <= k < |nodes| && k in out ==> Untouched(nodes, k)
  {
    Relink(nodes, out + {c}, entry.mate, r);
    label relinked:
    Relink(nodes, out, entry, c);
    forall k | 0 <= k < |nodes| && k in out ensures Untouched(nodes, k) {
      assert Untouched@relinked(nodes, k);
    }
  }

  // ----- building the list

  ghost predicate HasPair<V>(es: seq<Entry<V>>, id: nat) {
    exists i, j :: 0 <= i < j < |es| && es[i].id == id && es[j].id == id
  }

  /** Each id below half the length has one call and one later return. */
  ghost predicate WellFormed<V>(es: seq<Entry<V>>) {
    && |es| % 2 == 0
    && (forall i :: 0 <= i < |es| ==> es[i].id < |es| / 2)
    && (forall id: nat :: id < |es| / 2 ==> HasPair(es, id))
    && (forall i, j :: 0 <= i < j < |es| && es[i].id == es[j].id ==> es[i].kind.CallEntry? && es[j].kind.ReturnEntry?)
  }

  ghost function CallAt<V>(es: seq<Entry<V>>, id: nat): (i: nat)
    requires WellFormed(es) && id < |es| / 2
    ensures i < |es| && es[i].id == id && es[i].kind.CallEntry?
  {
    assert HasPair(es, id);
    var i, j :| 0 <= i < j < |es| && es[i].id == id && es[j].id == id; i
  }

  ghost function ReturnAt<V>(es: seq<Entry<V>>, id: nat): (j: nat)
    requires WellFormed(es) && id < |es| / 2
    ensures CallAt(es, id) < j < |es| && es[j].id == id && es[j].kind.ReturnEntry?
  {
    assert HasPair(es, id);
    var i, j :| 0 <= i < j < |es| && es[i].id == id && es[j].id == id; j
  }

  /** The operations an entry list records.  Times are positions, counted from 1:
      position 0 is the head the search puts in front. */
  ghost function OperationsOf<V>(es: seq<Entry<V>>): (ops: seq<Operation<V>>)
    requires WellFormed(es)
    ensures |ops| == |es| / 2
  {
    seq(|es| / 2, id requires 0 <= id < |es| / 2 =>
      Operation(es[CallAt(es, id)].value, CallAt(es, id) + 1, es[ReturnAt(es, id)].value, ReturnAt(es, id) + 1))
  }

  lemma NextNone(n: nat, k: int)
    requires 0 <= k < n
    ensures Next(n, {}, k) == k + 1 && Prev({}, k) == k - 1
  {
  }

  /** Put `n`, which has place `m`, in front of `mark`, the node at `m + 1`. */
  method InsertBefore<V>(n: Node<V>, mark: Node?<V>, ghost nodes: seq<Node<V>>, ghost m: int) returns (r: Node<V>)
    requires Distinct(nodes) && 0 <= m < |nodes| && nodes[m] == n && n.next == null && n.prev == null
    requires mark == NodeAt(nodes, m + 1)
    requires if mark == null then m == 0 else mark.prev == NodeAt(nodes, m - 1)
    modifies nodes
    ensures r == n && n.next == NodeAt(nodes, m + 1) && n.prev == NodeAt(nodes, m - 1)
    ensures forall k :: 0 <= k < |nodes| && k != m ==> nodes[k].next == if k == m - 1 then n else old(nodes[k].next)
    ensures forall k :: 0 <= k < |nodes| && k != m ==> nodes[k].prev == if k == m + 1 then n else old(nodes[k].prev)
  {
    if mark != null {
      var beforeMark := mark.prev;
      mark.prev := n;
      n.next := mark;
      if beforeMark != null {
        n.prev := beforeMark;
        beforeMark.next := n;
      }
    }
    r := n;
  }

  lemma PointsShifted<V>(n: Node<V>, nodes: seq<Node<V>>, k: int, next: Node?<V>, prev: Node?<V>)
    requires 0 <= k < |nodes| && Points(nodes, {}, k, next, prev)
    ensures Points([n] + nodes, {}, k + 1, next, if k == 0 then n else prev)
  {
    NextNone(|nodes|, k);
    NextNone(|nodes| + 1, k + 1);
  }

  lemma PointsFirst<V>(nodes: seq<Node<V>>, next: Node?<V>, prev: Node?<V>)
    requires nodes != []
    ensures Points(nodes, {}, 0, next, prev) <==> next == NodeAt(nodes, 1) && prev == null
  {
    NextNone(|nodes|, 0);
  }

  lemma DistinctFront<T>(n: T, s: seq<T>)
    requires Distinct(s) && n !in s
    ensures Distinct([n] + s)
  {
  }

  /** Insertion at the front of a whole list. */
  method InsertFirst<V>(n: Node<V>, mark: Node?<V>, ghost nodes: seq<Node<V>>)
    requires Linked(nodes, {}) && mark == NodeAt(nodes, 0)
    requires n !in nodes && n.next == null && n.prev == null
    modifies n, nodes
    ensures Linked([n] + nodes, {}) && n.next == mark
  {
    hide Points, Distinct;
    ghost var all := [n] + nodes;
    DistinctFront(n, nodes);
    if mark != null {
      assert LinkedAt(nodes, {}, 0);
      PointsFirst(nodes, mark.next, mark.prev);
    }
    var _ := InsertBefore(n, mark, all, 0);
    PointsFirst(all, n.next, n.prev);
    forall k | 0 <= k < |all| ensures LinkedAt(all, {}, k) {
      if k > 0 {
        var j := k - 1;
        assert all[k] == nodes[j];
        assert old(LinkedAt(nodes, {}, j));
        PointsShifted(n, nodes, j, old(nodes[j].next), old(nodes[j].prev));
      }
    }
  }

  /** `nodes` are the nodes made for the entries from position `i` on. */
  ghost predicate Built<V>(es: seq<Entry<V>>, nodes: seq<Node<V>>, i: nat) {
    && i <= |es| && |nodes| == |es| - i
    && (forall k {:trigger es[k]} :: i <= k < |es| ==>
          && nodes[k - i].value == es[k].value && nodes[k - i].id == es[k].id
          && (es[k].kind.ReturnEntry? ==> nodes[k - i].mate == null))
    && (forall k, l {:trigger es[k], es[l]} :: i <= k < l < |es| && es[k].id == es[l].id ==>
      nodes[k - i].mate == nodes[l - i])
  }

  ghost predicate ReturnsKnown<V>(es: seq<Entry<V>>, nodes: seq<Node<V>>, i: nat, matched: map<nat, Node<V>>)
    requires Built(es, nodes, i)
  {
    forall k {:trigger es[k]} :: i <= k < |es| && es[k].kind.ReturnEntry? ==>
      es[k].id in matched && matched[es[k].id] == nodes[k - i]
  }

  lemma BuiltMore<V>(es: seq<Entry<V>>, nodes: seq<Node<V>>, i: nat, node: Node<V>, matched: map<nat, Node<V>>)
    requires WellFormed(es) && 0 < i && Built(es, nodes, i) && ReturnsKnown(es, nodes, i, matched)
    requires var e := es[i - 1];
      && node.value == e.value && node.id == e.id
      && node.mate == if e.kind.ReturnEntry? || e.id !in matched then null else matched[e.id]
    ensures Built(es, [node] + nodes, i - 1)
    ensures es[i - 1].kind.CallEntry? ==> ReturnsKnown(es, [node] + nodes, i - 1, matched)
    ensures es[i - 1].kind.ReturnEntry? ==> ReturnsKnown(es, [node] + nodes, i - 1, matched[es[i - 1].id := node])
  {
  }

  lemma BuiltStart<V>(es: seq<Entry<V>>, matched: map<nat, Node<V>>)
    ensures Built(es, [], |es|) && ReturnsKnown(es, [], |es|, matched) && Linked<V>([], {})
  {
  }

  /** Build the list from its end (`makeLinkedEntries`). */
  method MakeLinkedEntries<V>(es: seq<Entry<V>>) returns (root: Node?<V>, ghost nodes: seq<Node<V>>)
    requires WellFormed(es)
    ensures Linked(nodes, {}) && root == NodeAt(nodes, 0)
    ensures Built(es, nodes, 0) && fresh(nodes)
  {
    hide Built, ReturnsKnown, Linked, WellFormed;
    root := null;
    nodes := [];
    var matched: map<nat, Node<V>> := map[];
    BuiltStart<V>(es, matched);
    var i := |es|;
    while i > 0
      invariant 0 <= i <= |es|
      invariant Built(es, nodes, i) && ReturnsKnown(es, nodes, i, matched)
      invariant Linked(nodes, {}) && root == NodeAt(nodes, 0) && fresh(nodes)
    {
      var elem := es[i - 1];
      var node;
      if elem.kind == ReturnEntry {
        node := new Node(elem.value, null, elem.id);
        BuiltMore(es, nodes, i, node, matched);
        matched := matched[elem.id := node];
      } else {
        var mate := if elem.id in matched then matched[elem.id] else null;
        node := new Node(elem.value, mate, elem.id);
        BuiltMore(es, nodes, i, node, matched);
      }
      InsertFirst(node, root, nodes);
      root := node;
      nodes := [node] + nodes;
      i := i - 1;
    }
  }

  // ----- the list and the operations it stands for

  /** `nodes`, a head followed by one call and one return node per operation. */
  ghost predicate Represents<V>(nodes: seq<Node<V>>, ops: seq<Operation<V>>) {
    && |nodes| == 2 * |ops| + 1 && Distinct(nodes)
    && (forall id :: 0 <= id < |ops| ==> RepresentsOp(nodes, ops[id], id))
    && (forall k :: 1 <= k < |nodes| ==>
          && nodes[k].id < |ops|
          && (k == ops[nodes[k].id].call || k == ops[nodes[k].id].ret))
  }

  ghost predicate RepresentsOp<V>(nodes: seq<Node<V>>, op: Operation<V>, id: nat) {
    && 1 <= op.call < op.ret < |nodes|
    && nodes[op.call].id == id && nodes[op.call].value == op.input && nodes[op.call].mate == nodes[op.ret]
    && nodes[op.ret].id == id && nodes[op.ret].value == op.output && nodes[op.ret].mate == null
  }

  lemma BuiltRepresents<V>(es: seq<Entry<V>>, nodes: seq<Node<V>>, head: Node<V>)
    requires WellFormed(es) && Built(es, nodes, 0)
    requires Distinct([head] + nodes)
    ensures Represents([head] + nodes, OperationsOf(es))
  {
    var all, ops := [head] + nodes, OperationsOf(es);
    forall id | 0 <= id < |ops| ensures RepresentsOp(all, ops[id], id) {
      var c, r := CallAt(es, id), ReturnAt(es, id);
      assert all[c + 1] == nodes[c] && all[r + 1] == nodes[r];
      assert es[c].id == es[r].id;
    }
    forall k | 1 <= k < |all|
      ensures all[k].id < |ops| && (k == ops[all[k].id].call || k == ops[all[k].id].ret)
    {
      var id := es[k - 1].id;
      var c, r := CallAt(es, id), ReturnAt(es, id);
      assert all[k] == nodes[k - 1];
    }
  }
}
