/**
 The checker's entry points: split a history by key, check each part, and take
 the conjunction (linearizability/linearizability.go:235-314, models.go:17-28).
 */
module CheckHistory {
  import opened Histories
  import opened LinkedEntries
  import opened Entries
  import opened KvLocality
  import Checker
  import KvMeaning

  ghost function HistoryKeys(ops: seq<KvOp>): set<string>
    requires Typed(ops)
  {
    set i | 0 <= i < |ops| :: ops[i].input.key
  }

  /** `parts` are the histories of the distinct keys of `ops`, in some order. */
  ghost predicate IsPartition(ops: seq<KvOp>, keys: seq<string>, parts: seq<seq<KvOp>>)
    requires Typed(ops)
  {
    && |keys| == |parts| && Distinct(keys)
    && (forall i :: 0 <= i < |keys| ==> parts[i] == KeyHistory(ops, keys[i]))
    && (forall k :: k in keys <==> k in HistoryKeys(ops))
  }

  lemma PrefixKeyHistory(ops: seq<KvOp>, n: nat, key: string)
    requires Typed(ops) && n < |ops|
    ensures KeyHistory(ops[..n + 1], key) ==
            KeyHistory(ops[..n], key) + if ops[n].input.key == key then [ops[n]] else []
    ensures HistoryKeys(ops[..n + 1]) == HistoryKeys(ops[..n]) + {ops[n].input.key}
  {
    assert ops[..n + 1][..n] == ops[..n];
    var a, b := HistoryKeys(ops[..n + 1]), HistoryKeys(ops[..n]);
    forall k ensures k in a <==> k in b + {ops[n].input.key} {
      if k in a {
        var i :| 0 <= i < n + 1 && ops[..n + 1][i].input.key == k;
        assert i < n ==> ops[..n][i].input.key == k;
      }
      if k in b {
        var i :| 0 <= i < n && ops[..n][i].input.key == k;
        assert ops[..n + 1][i].input.key == k;
      }
      assert ops[..n + 1][n] == ops[n];
    }
  }

  lemma {:induction false} NoHistory(ops: seq<KvOp>, key: string)
    requires Typed(ops) && key !in HistoryKeys(ops)
    ensures KeyHistory(ops, key) == []
  {
    if ops != [] {
      var n := |ops| - 1;
      assert ops[..n + 1] == ops;
      PrefixKeyHistory(ops, n, key);
      NoHistory(ops[..n], key);
    }
  }

  /** `m` holds the history of every key of `ops`. */
  ghost predicate Grouped(ops: seq<KvOp>, m: map<string, seq<KvOp>>)
    requires Typed(ops)
  {
    m.Keys == HistoryKeys(ops) && forall k :: k in m ==> m[k] == KeyHistory(ops, k)
  }

  lemma GroupOne(ops: seq<KvOp>, n: nat, m: map<string, seq<KvOp>>)
    requires Typed(ops) && n < |ops| && Grouped(ops[..n], m)
    ensures var v := ops[n]; var key := v.input.key;
      Grouped(ops[..n + 1], m[key := (if key in m then m[key] else []) + [v]])
  {
    hide HistoryKeys, KeyHistory;
    var v := ops[n];
    var key := v.input.key;
    var m' := m[key := (if key in m then m[key] else []) + [v]];
    PrefixKeyHistory(ops, n, key);
    if key !in m {
      NoHistory(ops[..n], key);
    }
    forall k | k in m' ensures m'[k] == KeyHistory(ops[..n + 1], k) {
      PrefixKeyHistory(ops, n, k);
    }
  }

  method GroupByKey(history: seq<KvOp>) returns (m: map<string, seq<KvOp>>)
    requires Typed(history)
    ensures Grouped(history, m)
  {
    m := map[];
    for n := 0 to |history|
      invariant Grouped(history[..n], m)
    {
      var v := history[n];
      GroupOne(history, n, m);
      var key := v.input.key;
      m := m[key := (if key in m then m[key] else []) + [v]];
    }
    assert history[..|history|] == history;
  }

  lemma DistinctMore<T>(s: seq<T>, x: T)
    requires Distinct(s) && x !in s
    ensures Distinct(s + [x])
  {
  }

  method Partition(history: seq<KvOp>) returns (parts: seq<seq<KvOp>>)
    requires Typed(history)
    ensures exists keys :: IsPartition(history, keys, parts)
  {
    hide Distinct, KeyHistory, HistoryKeys;
    var m := GroupByKey(history);
    parts := [];
    ghost var keys := [];
    assert Distinct(keys) by { NothingDistinct<string>(); }
    var left := m.Keys;
    while left != {}
      invariant left <= m.Keys && |keys| == |parts| && Distinct(keys)
      invariant forall i :: 0 <= i < |keys| ==> parts[i] == KeyHistory(history, keys[i])
      invariant forall k :: k in keys <==> k in m.Keys - left
    {
      var k :| k in left;
      DistinctMore(keys, k);
      parts, keys, left := parts + [m[k]], keys + [k], left - {k};
    }
    assert IsPartition(history, keys, parts);
  }

  lemma NothingDistinct<T>()
    ensures Distinct<T>([])
  {
  }

  lemma TimedPart(ops: seq<KvOp>, key: string)
    requires Timed(ops) && Typed(ops)
    ensures Timed(KeyHistory(ops, key))
  {
    PositionsEmbed(ops, key);
  }

  /** Check one history without splitting it (`NoPartition`). */
  method CheckWhole<S(==), V(0)>(model: Model<S, V>, history: seq<Operation<V>>) returns (ok: bool)
    requires Timed(history)
    ensures ok <==> Linearizable(model, history)
  {
    hide Timed, EntriesOf, WellFormed, Linearizable, OperationsOf, Built, Linked;
    var es := MakeEntries(history);
    EntriesRecord(model, history, es);
    var l, nodes := MakeLinkedEntries(es);
    ok := Checker.CheckSingle(model, l, es, nodes);
  }

  lemma PartsDecide(ops: seq<KvOp>, keys: seq<string>, parts: seq<seq<KvOp>>)
    requires Timed(ops) && Typed(ops) && IsPartition(ops, keys, parts)
    ensures Linearizable(StoreModel(), ops) <==>
            forall i :: 0 <= i < |parts| ==> Linearizable(KvModel(), parts[i])
  {
    hide Linearizable, KeyHistory, Timed;
    Locality(ops);
    if forall i :: 0 <= i < |parts| ==> Linearizable(KvModel(), parts[i]) {
      forall key ensures KeyLinearizable(ops, key) {
        if key in HistoryKeys(ops) {
          var i :| 0 <= i < |keys| && keys[i] == key;
          assert Linearizable(KvModel(), parts[i]);
        } else {
          NoHistory(ops, key);
          EmptyLinearizable(KvModel());
        }
      }
    }
    if forall key :: KeyLinearizable(ops, key) {
      forall i | 0 <= i < |parts| ensures Linearizable(KvModel(), parts[i]) {
        assert KeyLinearizable(ops, keys[i]);
      }
    }
  }

  lemma EmptyLinearizable<S, V>(m: Model<S, V>)
    ensures Linearizable(m, [])
  {
    CompletableAll(m, [], {}, m.init);
  }

  /** The conjunction over the keys decides whether the whole history is
      linearizable against the whole store: whether it has an order in which every
      get returns the last put to its key and what was appended since. */
  method CheckOperations(history: seq<KvOp>) returns (ok: bool)
    requires Timed(history) && Typed(history) && history != []
    ensures ok <==> Linearizable(StoreModel(), history)
    ensures ok <==> exists order :: KvMeaning.Explains(history, order)
  {
    KvMeaning.StoreLinearizable(history);
    hide Timed, Linearizable, KeyHistory;
    var partitions := Partition(history);
    ghost var keys :| IsPartition(history, keys, partitions);
    PartsDecide(history, keys, partitions);
    ok := true;
    var count := 0;
    while count < |partitions|
      invariant 0 <= count <= |partitions|
      invariant ok <==> forall i :: 0 <= i < count ==> Linearizable(KvModel(), partitions[i])
    {
      TimedPart(history, keys[count]);
      var result := CheckWhole(KvModel(), partitions[count]);
      ok := ok && result;
      if !ok {
        break;
      }
      count := count + 1;
    }
  }

  /** `es` has the events' kinds and values; ids are renamed one to one. */
  ghost predicate Renames<V>(events: seq<Event<V>>, es: seq<Entry<V>>) {
    && WellFormed(es) && |es| == |events|
    && (forall i :: 0 <= i < |es| ==> es[i].kind == events[i].kind && es[i].value == events[i].value)
    && (forall i, j :: 0 <= i < |es| && 0 <= j < |es| ==> (es[i].id == es[j].id <==> events[i].id == events[j].id))
  }

  /** The number of an operation after another renaming. */
  ghost function Renaming<V>(es: seq<Entry<V>>, es': seq<Entry<V>>): (idx: seq<nat>)
    requires WellFormed(es) && WellFormed(es') && |es| == |es'|
    ensures |idx| == |es| / 2 && forall id :: 0 <= id < |idx| ==> idx[id] == es'[CallAt(es, id)].id
  {
    seq(|es| / 2, id requires 0 <= id < |es| / 2 => es'[CallAt(es, id)].id)
  }

  /** The renamed operation is called and returns at the same positions. */
  lemma SamePositions<V>(events: seq<Event<V>>, es: seq<Entry<V>>, es': seq<Entry<V>>, id: nat)
    requires Renames(events, es) && Renames(events, es') && id < |es| / 2
    ensures var id' := es'[CallAt(es, id)].id;
      id' < |es'| / 2 && CallAt(es', id') == CallAt(es, id) && ReturnAt(es', id') == ReturnAt(es, id)
  {
    var c, r := CallAt(es, id), ReturnAt(es, id);
    var id' := es'[c].id;
    assert es'[r].id == id';
    var c', r' := CallAt(es', id'), ReturnAt(es', id');
    assert !(c < c') && !(c' < c);
    assert !(r < r') && !(r' < r);
  }

  lemma RenamedOperation<V>(events: seq<Event<V>>, es: seq<Entry<V>>, es': seq<Entry<V>>, id: nat)
    requires Renames(events, es) && Renames(events, es') && id < |es| / 2
    ensures var id' := Renaming(es, es')[id]; id' < |es'| / 2 && OperationsOf(es')[id'] == OperationsOf(es)[id]
  {
    SamePositions(events, es, es', id);
  }

  lemma RenamedApart<V>(events: seq<Event<V>>, es: seq<Entry<V>>, es': seq<Entry<V>>, i: nat, j: nat)
    requires Renames(events, es) && Renames(events, es') && i < j < |es| / 2
    ensures Renaming(es, es')[i] != Renaming(es, es')[j]
  {
    assert es[CallAt(es, i)].id != es[CallAt(es, j)].id;
  }

  lemma RenamedOnto<V>(events: seq<Event<V>>, es: seq<Entry<V>>, es': seq<Entry<V>>, k: nat)
    requires Renames(events, es) && Renames(events, es') && k < |es'| / 2
    ensures k in Renaming(es, es')
  {
    SamePositions(events, es', es, k);
    assert Renaming(es, es')[es[CallAt(es', k)].id] == k;
  }

  lemma RenamingEmbeds<V>(events: seq<Event<V>>, es: seq<Entry<V>>, es': seq<Entry<V>>)
    requires Renames(events, es) && Renames(events, es')
    ensures Embeds(OperationsOf(es), OperationsOf(es'), {}, Renaming(es, es'))
  {
    hide WellFormed, Precedes;
    var a, b, idx := OperationsOf(es), OperationsOf(es'), Renaming(es, es');
    assert |a| == |b| == |idx| == |es| / 2;
    hide OperationsOf, Renaming;
    forall id: nat | id < |a| ensures idx[id] < |b| && b[idx[id]] == a[id] {
      RenamedOperation(events, es, es', id);
    }
    forall i, j | 0 <= i < j < |idx| ensures idx[i] != idx[j] {
      RenamedApart(events, es, es', i, j);
    }
    forall k: nat | k < |b| ensures k in idx {
      RenamedOnto(events, es, es', k);
    }
  }

  /** Which renaming is checked does not matter. */
  lemma RenamingsAgree<S, V>(model: Model<S, V>, events: seq<Event<V>>, es: seq<Entry<V>>, es': seq<Entry<V>>)
    requires Renames(events, es) && Renames(events, es')
    ensures Linearizable(model, OperationsOf(es)) <==> Linearizable(model, OperationsOf(es'))
  {
    hide OperationsOf, WellFormed, Embeds, Completable;
    RenamingEmbeds(events, es, es');
    EmbeddingPreserves(model, OperationsOf(es), OperationsOf(es'), {}, Renaming(es, es'), model.init);
  }

  lemma EntriesRename<V>(events: seq<Event<V>>, e: seq<Event<V>>, m: map<nat, nat>, count: nat, es: seq<Entry<V>>)
    requires EventsPaired(events) && Renamed(events, e) && Numbering(m, count) && Carries(events, e, m, |e|)
    requires forall k :: k in m ==> exists i :: 0 <= i < |e| && events[i].id == k
    requires |es| == |e| && forall i :: 0 <= i < |es| ==> es[i] == ConvertEntry(e[i])
    ensures WellFormed(es) && Renames(events, es)
  {
    RenumberedWellFormed(events, e, m, count, es);
    hide WellFormed, EventsPaired, Numbering, Carries;
  }

  /** Check an event sequence, order being position: the answer is right for every
      one-to-one renaming of the ids, of which there is one. */
  method CheckEvents<S(==), V(0, !new)>(model: Model<S, V>, events: seq<Event<V>>) returns (ok: bool)
    requires EventsPaired(events)
    ensures exists es :: Renames(events, es)
    ensures forall es :: Renames(events, es) ==> (ok <==> Linearizable(model, OperationsOf(es)))
  {
    hide WellFormed, Linearizable, OperationsOf, Built, Linked, EventsPaired, Numbering, Renames;
    hide Renamed, Carries, ByAppearance;
    var e, m, n := Renumber(events);
    var entries := ConvertEntries(e);
    EntriesRename(events, e, m, n, entries);
    var l, nodes := MakeLinkedEntries(entries);
    ok := Checker.CheckSingle(model, l, entries, nodes);
    RightForAll(model, events, entries, ok);
  }

  lemma RightForAll<S, V(!new)>(model: Model<S, V>, events: seq<Event<V>>, entries: seq<Entry<V>>, ok: bool)
    requires Renames(events, entries) && (ok <==> Linearizable(model, OperationsOf(entries)))
    ensures exists es :: Renames(events, es)
    ensures forall es :: Renames(events, es) ==> (ok <==> Linearizable(model, OperationsOf(es)))
  {
    forall es | Renames(events, es) ensures ok <==> Linearizable(model, OperationsOf(es)) {
      hide Linearizable, OperationsOf, WellFormed;
      RenamingsAgree(model, events, entries, es);
    }
  }
}
