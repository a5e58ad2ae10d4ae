/**
 From a history to the sorted list of its call and return entries, and from an
 event sequence to the same (linearizability/linearizability.go:37-49, 80-107).
 */
module Entries {
  import opened Common
  import opened Histories
  import opened LinkedEntries

  // ----- sorting

  ghost predicate SortedByTime<V>(es: seq<Entry<V>>) {
    forall i, j :: 0 <= i < j < |es| ==> es[i].time <= es[j].time
  }

  function Insert<V>(es: seq<Entry<V>>, e: Entry<V>): seq<Entry<V>> {
    if es == [] then [e]
    else
      var n := |es| - 1;
      if es[n].time <= e.time then es + [e] else Insert(es[..n], e) + [es[n]]
  }

  lemma {:induction false} InsertAdds<V>(es: seq<Entry<V>>, e: Entry<V>)
    ensures multiset(Insert(es, e)) == multiset(es) + multiset{e}
  {
    if es != [] {
      var n := |es| - 1;
      InsertAdds(es[..n], e);
      assert es == es[..n] + [es[n]];
    }
  }

  lemma {:induction false} InsertSorts<V>(es: seq<Entry<V>>, e: Entry<V>)
    requires SortedByTime(es)
    ensures SortedByTime(Insert(es, e))
  {
    if es != [] {
      var n := |es| - 1;
      if es[n].time > e.time {
        var front := Insert(es[..n], e);
        InsertSorts(es[..n], e);
        InsertAdds(es[..n], e);
        forall i | 0 <= i < |front| ensures front[i].time <= es[n].time {
          assert front[i] in multiset(front);
          assert front[i] == e || front[i] in es[..n];
        }
      }
    }
  }

  /** Some arrangement in order of time: which of several entries of the same
      time comes first is not determined. */
  method SortByTime<V>(es: seq<Entry<V>>) returns (r: seq<Entry<V>>)
    ensures multiset(r) == multiset(es) && SortedByTime(r)
  {
    r := [];
    for i := 0 to |es|
      invariant multiset(r) == multiset(es[..i]) && SortedByTime(r)
    {
      InsertAdds(r, es[i]);
      InsertSorts(r, es[i]);
      r := Insert(r, es[i]);
      assert es[..i + 1] == es[..i] + [es[i]];
    }
    assert es[..|es|] == es;
  }

  // ----- entries of a history

  function CallOf<V>(history: seq<Operation<V>>, id: nat): Entry<V>
    requires id < |history|
  {
    Entry(CallEntry, history[id].input, id, history[id].call)
  }

  function ReturnOf<V>(history: seq<Operation<V>>, id: nat): Entry<V>
    requires id < |history|
  {
    Entry(ReturnEntry, history[id].output, id, history[id].ret)
  }

  ghost function RawEntries<V>(history: seq<Operation<V>>): (es: seq<Entry<V>>) {
    seq(2 * |history|, k requires 0 <= k < 2 * |history| =>
      if k % 2 == 0 then CallOf(history, k / 2) else ReturnOf(history, k / 2))
  }

  /** `es` is an arrangement of the history's entries in order of time. */
  ghost predicate EntriesOf<V>(history: seq<Operation<V>>, es: seq<Entry<V>>) {
    multiset(es) == multiset(RawEntries(history)) && SortedByTime(es)
  }

  method MakeEntries<V>(history: seq<Operation<V>>) returns (es: seq<Entry<V>>)
    ensures EntriesOf(history, es)
  {
    var entries: seq<Entry<V>> := [];
    var id := 0;
    while id < |history|
      invariant id <= |history| && entries == RawEntries(history)[..2 * id]
    {
      entries := entries + [CallOf(history, id)];
      entries := entries + [ReturnOf(history, id)];
      id := id + 1;
    }
    assert entries == RawEntries(history);
    es := SortByTime(entries);
  }

  lemma {:induction false} DistinctCount<T>(s: seq<T>, x: T)
    requires Distinct(s)
    ensures multiset(s)[x] <= 1
  {
    if s != [] {
      var n := |s| - 1;
      DistinctCount(s[..n], x);
      assert s == s[..n] + [s[n]];
      if s[n] == x {
        assert x !in s[..n];
      }
    }
  }

  lemma TwiceCounted<T>(s: seq<T>, i: nat, j: nat)
    requires i < j < |s| && s[i] == s[j]
    ensures multiset(s)[s[i]] >= 2
  {
    assert s == s[..j] + s[j..];
    assert s[..j][i] == s[i] && s[i] in multiset(s[..j]);
    assert s[j..][0] == s[j] && s[i] in multiset(s[j..]);
  }

  lemma SamePermuted<T>(s: seq<T>, t: seq<T>)
    requires Distinct(s) && multiset(s) == multiset(t)
    ensures Distinct(t) && |t| == |s|
    ensures forall x :: x in s <==> x in t
  {
    forall i, j | 0 <= i < j < |t| ensures t[i] != t[j] {
      if t[i] == t[j] {
        TwiceCounted(t, i, j);
        DistinctCount(s, t[i]);
      }
    }
    assert |multiset(s)| == |s| && |multiset(t)| == |t|;
    forall x ensures x in s <==> x in t {
      assert x in s <==> x in multiset(s);
      assert x in t <==> x in multiset(t);
    }
  }

  /** Each entry of the history stands at exactly one position. */
  lemma EntryPlaces<V>(history: seq<Operation<V>>, es: seq<Entry<V>>)
    requires EntriesOf(history, es)
    ensures |es| == 2 * |history| && Distinct(es)
    ensures forall id: nat :: id < |history| ==> CallOf(history, id) in es && ReturnOf(history, id) in es
    ensures forall i :: 0 <= i < |es| ==> IsEntryOf(history, es[i])
  {
    var raw := RawEntries(history);
    SamePermuted(raw, es);
    forall id: nat | id < |history| ensures CallOf(history, id) in es && ReturnOf(history, id) in es {
      assert raw[2 * id] == CallOf(history, id) && raw[2 * id + 1] == ReturnOf(history, id);
    }
    forall i | 0 <= i < |es| ensures IsEntryOf(history, es[i]) {
      assert es[i] in raw;
      var k :| 0 <= k < |raw| && raw[k] == es[i];
    }
  }

  ghost predicate IsEntryOf<V>(history: seq<Operation<V>>, e: Entry<V>) {
    e.id < |history| && e == if e.kind.CallEntry? then CallOf(history, e.id) else ReturnOf(history, e.id)
  }

  /** Sorted entries of a history are well formed... */
  lemma EntriesWellFormed<V>(history: seq<Operation<V>>, es: seq<Entry<V>>)
    requires Timed(history) && EntriesOf(history, es)
    ensures WellFormed(es) && |es| == 2 * |history|
  {
    EntryPlaces(history, es);
    forall i, j | 0 <= i < j < |es| && es[i].id == es[j].id ensures es[i].kind.CallEntry? && es[j].kind.ReturnEntry? {
      assert IsEntryOf(history, es[i]) && IsEntryOf(history, es[j]);
    }
    forall id: nat | id < |es| / 2 ensures HasPair(es, id) {
      var c :| 0 <= c < |es| && es[c] == CallOf(history, id);
      var r :| 0 <= r < |es| && es[r] == ReturnOf(history, id);
    }
    forall i | 0 <= i < |es| ensures es[i].id < |es| / 2 {
      assert IsEntryOf(history, es[i]);
    }
  }

  ghost function Identity(n: nat): (s: seq<nat>)
    ensures |s| == n && forall i :: 0 <= i < n ==> s[i] == i
  {
    seq(n, i => i)
  }

  lemma PairRecorded<V>(history: seq<Operation<V>>, es: seq<Entry<V>>, i: nat, j: nat)
    requires Timed(history) && EntriesOf(history, es) && WellFormed(es) && |es| == 2 * |history|
    requires i < |history| && j < |history|
    ensures var ops := OperationsOf(es);
      && ops[i].input == history[i].input && ops[i].output == history[i].output
      && (Precedes(ops[i], ops[j]) <==> Precedes(history[i], history[j]))
  {
    EntryPlaces(history, es);
    hide EntriesOf, WellFormed, Distinct;
    var c, r := CallAt(es, j), ReturnAt(es, i);
    assert IsEntryOf(history, es[c]) && IsEntryOf(history, es[r]);
    assert IsEntryOf(history, es[CallAt(es, i)]);
    assert SortedByTime(es) by { SortedEntries(history, es); }
  }

  lemma SortedEntries<V>(history: seq<Operation<V>>, es: seq<Entry<V>>)
    requires EntriesOf(history, es)
    ensures SortedByTime(es)
  {
  }

  /** ... and record its operations: positions order calls and returns as times do. */
  lemma EntriesRecord<S, V>(m: Model<S, V>, history: seq<Operation<V>>, es: seq<Entry<V>>)
    requires Timed(history) && EntriesOf(history, es)
    ensures WellFormed(es)
    ensures Linearizable(m, OperationsOf(es)) <==> Linearizable(m, history)
  {
    EntriesWellFormed(history, es);
    var ops := OperationsOf(es);
    forall i, j | 0 <= i < |ops| && 0 <= j < |ops|
      ensures ops[i].input == history[i].input && ops[i].output == history[i].output
      ensures Precedes(ops[i], ops[j]) <==> Precedes(history[i], history[j])
    {
      PairRecorded(history, es, i, j);
    }
    hide Linearizable, Completable, WellFormed, OperationsOf, EntriesOf, Timed, Precedes;
    var idx := Identity(|history|);
    forall k: nat | k < |history| && k !in {} ensures k in idx { assert idx[k] == k; }
    EmbeddingPreserves(m, ops, history, {}, idx, m.init);
  }

  // ----- entries of an event sequence

  datatype Event<V> = Event(kind: Kind, value: V, id: nat)

  ghost predicate EventPair<V>(events: seq<Event<V>>, i: int, j: int)
    requires 0 <= i < |events| && 0 <= j < |events|
  {
    events[i].id == events[j].id && events[i].kind.CallEntry? && events[j].kind.ReturnEntry?
  }

  /** One of the two events is the call, the other its later return. */
  ghost predicate Mates<V>(events: seq<Event<V>>, i: int, j: int)
    requires 0 <= i < |events| && 0 <= j < |events|
  {
    if events[i].kind.CallEntry? then i < j && EventPair(events, i, j) else j < i && EventPair(events, j, i)
  }

  ghost predicate Answered<V>(events: seq<Event<V>>, i: int)
    requires 0 <= i < |events|
  {
    exists j :: 0 <= j < |events| && Mates(events, i, j)
  }

  /** Every id has one call and one later return. */
  ghost predicate EventsPaired<V>(events: seq<Event<V>>) {
    && (forall i, j :: 0 <= i < j < |events| && events[i].id == events[j].id ==> EventPair(events, i, j))
    && (forall i :: 0 <= i < |events| ==> Answered(events, i))
  }

  /** The same events under other ids: ids agree exactly when they did before. */
  ghost predicate Renamed<V>(events: seq<Event<V>>, e: seq<Event<V>>) {
    && |e| == |events|
    && (forall i :: 0 <= i < |e| ==> e[i].kind == events[i].kind && e[i].value == events[i].value)
    && (forall i, j :: 0 <= i < |e| && 0 <= j < |e| ==> (e[i].id == e[j].id <==> events[i].id == events[j].id))
  }

  /** Ids already numbered: each number below `count` once. */
  ghost predicate Numbering(m: map<nat, nat>, count: nat) {
    && (forall k :: k in m ==> m[k] < count)
    && (forall k, l :: k in m && l in m && m[k] == m[l] ==> k == l)
    && (forall x: nat :: x < count ==> HasNumber(m, x))
  }

  ghost predicate HasNumber(m: map<nat, nat>, x: nat) {
    exists k :: k in m && m[k] == x
  }

  ghost function IdsBefore<V>(e: seq<Event<V>>, n: nat): set<nat>
    requires n <= |e|
  {
    set i | 0 <= i < n :: e[i].id
  }

  lemma IdsOneMore<V>(e: seq<Event<V>>, n: nat)
    requires n < |e|
    ensures IdsBefore(e, n + 1) == IdsBefore(e, n) + {e[n].id}
  {
  }

  lemma IdsStart<V>(e: seq<Event<V>>)
    ensures IdsBefore(e, 0) == {} && Numbering(map[], 0)
  {
  }

  lemma IdsOccur<V>(e: seq<Event<V>>, n: nat)
    requires n <= |e|
    ensures forall k :: k in IdsBefore(e, n) ==> exists i :: 0 <= i < n && e[i].id == k
  {
  }

  /** An id that appears first at `i` gets the number of ids that came before. */
  ghost predicate ByAppearance<V>(events: seq<Event<V>>, e: seq<Event<V>>, n: nat)
    requires n <= |e| && n <= |events|
  {
    forall i :: 0 <= i < n && events[i].id !in IdsBefore(events, i) ==> e[i].id == |IdsBefore(events, i)|
  }

  /** The events so far carry the numbers of their ids. */
  ghost predicate Carries<V>(events: seq<Event<V>>, e: seq<Event<V>>, m: map<nat, nat>, n: nat)
    requires n <= |e| && n <= |events|
  {
    forall i :: 0 <= i < n ==>
      && e[i].kind == events[i].kind && e[i].value == events[i].value
      && events[i].id in m && e[i].id == m[events[i].id]
  }

  lemma CarriesRenamed<V>(events: seq<Event<V>>, e: seq<Event<V>>, m: map<nat, nat>, count: nat)
    requires |e| == |events| && Carries(events, e, m, |e|) && Numbering(m, count)
    ensures Renamed(events, e)
  {
  }

  lemma OneMoreCarried<V>(events: seq<Event<V>>, e: seq<Event<V>>, m: map<nat, nat>, m': map<nat, nat>)
    requires |e| < |events| && Carries(events, e, m, |e|) && events[|e|].id in m'
    requires forall k :: k in m ==> k in m' && m'[k] == m[k]
    ensures var v := events[|e|]; Carries(events, e + [Event(v.kind, v.value, m'[v.id])], m', |e| + 1)
  {
  }

  lemma OneMoreAppears<V>(events: seq<Event<V>>, e: seq<Event<V>>, x: Event<V>)
    requires |e| < |events| && ByAppearance(events, e, |e|)
    requires events[|e|].id !in IdsBefore(events, |e|) ==> x.id == |IdsBefore(events, |e|)|
    ensures ByAppearance(events, e + [x], |e| + 1)
  {
    hide IdsBefore;
  }

  ghost predicate NumberedSoFar<V>(events: seq<Event<V>>, e: seq<Event<V>>, m: map<nat, nat>, count: nat) {
    && |e| <= |events| && Numbering(m, count) && Carries(events, e, m, |e|) && ByAppearance(events, e, |e|)
    && m.Keys == IdsBefore(events, |e|) && count == |IdsBefore(events, |e|)|
  }

  lemma OldNumber<V>(events: seq<Event<V>>, e: seq<Event<V>>, m: map<nat, nat>, count: nat)
    requires |e| < |events| && NumberedSoFar(events, e, m, count) && events[|e|].id in m
    ensures var v := events[|e|]; NumberedSoFar(events, e + [Event(v.kind, v.value, m[v.id])], m, count)
  {
    hide Numbering, Carries, ByAppearance, IdsBefore;
    var v := events[|e|];
    IdsOneMore(events, |e|);
    OneMoreCarried(events, e, m, m);
    OneMoreAppears(events, e, Event(v.kind, v.value, m[v.id]));
  }

  lemma NewNumber<V>(events: seq<Event<V>>, e: seq<Event<V>>, m: map<nat, nat>, count: nat)
    requires |e| < |events| && NumberedSoFar(events, e, m, count) && events[|e|].id !in m
    ensures var v := events[|e|];
      NumberedSoFar(events, e + [Event(v.kind, v.value, count)], m[v.id := count], count + 1)
  {
    hide Numbering, Carries, ByAppearance, IdsBefore;
    var v := events[|e|];
    IdsOneMore(events, |e|);
    NumberingGrows(m, count, v.id);
    OneMoreCarried(events, e, m, m[v.id := count]);
    OneMoreAppears(events, e, Event(v.kind, v.value, count));
  }

  /** Ids are numbered from 0, in order of appearance. */
  method Renumber<V>(events: seq<Event<V>>) returns (e: seq<Event<V>>, ghost m: map<nat, nat>, ghost count: nat)
    ensures Renamed(events, e) && Numbering(m, count) && Carries(events, e, m, |e|)
    ensures forall k :: k in m ==> exists i :: 0 <= i < |e| && events[i].id == k
    ensures ByAppearance(events, e, |e|)
  {
    e := [];
    var numbers: map<nat, nat> := map[];
    var id := 0;
    assert NumberedSoFar(events, e, numbers, id) by { IdsStart(events); }
    hide IdsBefore, Numbering, Renamed, Carries, ByAppearance, NumberedSoFar;
    for n := 0 to |events|
      invariant |e| == n && NumberedSoFar(events, e, numbers, id)
    {
      var v := events[n];
      if v.id in numbers {
        OldNumber(events, e, numbers, id);
        e := e + [Event(v.kind, v.value, numbers[v.id])];
      } else {
        NewNumber(events, e, numbers, id);
        e := e + [Event(v.kind, v.value, id)];
        numbers := numbers[v.id := id];
        id := id + 1;
      }
    }
    m, count := numbers, id;
    AllNumbered(events, e, m, count);
  }

  lemma AllNumbered<V>(events: seq<Event<V>>, e: seq<Event<V>>, m: map<nat, nat>, count: nat)
    requires NumberedSoFar(events, e, m, count) && |e| == |events|
    ensures Renamed(events, e) && Numbering(m, count) && Carries(events, e, m, |e|) && ByAppearance(events, e, |e|)
    ensures forall k :: k in m ==> exists i :: 0 <= i < |e| && events[i].id == k
  {
    hide Numbering, Renamed, ByAppearance, IdsBefore;
    CarriesRenamed(events, e, m, count);
    IdsOccur(events, |e|);
  }

  lemma NumberingGrows(m: map<nat, nat>, count: nat, k: nat)
    requires Numbering(m, count) && k !in m
    ensures Numbering(m[k := count], count + 1)
  {
    var m' := m[k := count];
    forall x: nat | x < count + 1 ensures HasNumber(m', x) {
      if x < count {
        assert HasNumber(m, x);
        var l :| l in m && m[l] == x;
        assert m'[l] == x;
      } else {
        assert m'[k] == x;
      }
    }
  }

  lemma RenamedPaired<V>(events: seq<Event<V>>, e: seq<Event<V>>)
    requires EventsPaired(events) && Renamed(events, e)
    ensures EventsPaired(e)
  {
    forall i, j | 0 <= i < j < |e| && e[i].id == e[j].id ensures EventPair(e, i, j) {
      assert EventPair(events, i, j);
    }
    forall i | 0 <= i < |e| ensures Answered(e, i) {
      assert Answered(events, i);
      var j :| 0 <= j < |events| && Mates(events, i, j);
      assert Mates(e, i, j);
    }
  }

  ghost function ReturnedBefore<V>(e: seq<Event<V>>, n: nat): set<nat>
    requires n <= |e|
  {
    set i | 0 <= i < n && e[i].kind.ReturnEntry? :: e[i].id
  }

  lemma CallComesFirst<V>(e: seq<Event<V>>, k: nat)
    requires EventsPaired(e) && k < |e| && e[k].kind.CallEntry?
    ensures e[k].id !in IdsBefore(e, k) && ReturnedBefore(e, k + 1) == ReturnedBefore(e, k)
  {
    forall i | 0 <= i < k ensures e[i].id != e[k].id {
      assert e[i].id == e[k].id ==> EventPair(e, i, k);
    }
  }

  lemma ReturnComesSecond<V>(e: seq<Event<V>>, k: nat)
    requires EventsPaired(e) && k < |e| && e[k].kind.ReturnEntry?
    ensures e[k].id in IdsBefore(e, k) && e[k].id !in ReturnedBefore(e, k)
    ensures ReturnedBefore(e, k + 1) == ReturnedBefore(e, k) + {e[k].id}
  {
    assert Answered(e, k);
    forall i | 0 <= i < k && e[i].kind.ReturnEntry? ensures e[i].id != e[k].id {
      assert e[i].id == e[k].id ==> EventPair(e, i, k);
    }
  }

  /** Among the first `n` events, an id counts once, and twice once returned. */
  lemma {:induction false} CountEvents<V>(e: seq<Event<V>>, n: nat)
    requires EventsPaired(e) && n <= |e|
    ensures n == |IdsBefore(e, n)| + |ReturnedBefore(e, n)|
  {
    if n > 0 {
      var k := n - 1;
      CountEvents(e, k);
      assert IdsBefore(e, n) == IdsBefore(e, k) + {e[k].id};
      hide IdsBefore, ReturnedBefore, EventsPaired;
      if e[k].kind.CallEntry? {
        CallComesFirst(e, k);
      } else {
        ReturnComesSecond(e, k);
        assert IdsBefore(e, k) + {e[k].id} == IdsBefore(e, k);
      }
    }
  }

  ghost predicate IsPaired<V>(e: seq<Event<V>>, id: nat) {
    exists i, j :: 0 <= i < j < |e| && EventPair(e, i, j) && e[i].id == id
  }

  lemma AllPaired<V>(e: seq<Event<V>>)
    requires EventsPaired(e)
    ensures forall id :: id in IdsBefore(e, |e|) ==> IsPaired(e, id)
    ensures ReturnedBefore(e, |e|) == IdsBefore(e, |e|)
  {
    var n := |e|;
    forall id | id in IdsBefore(e, n) ensures IsPaired(e, id) && id in ReturnedBefore(e, n) {
      var i :| 0 <= i < n && e[i].id == id;
      assert Answered(e, i);
      var j :| 0 <= j < n && Mates(e, i, j);
      assert e[j].id == id;
    }
  }

  function ConvertEntry<V>(v: Event<V>): Entry<V> {
    Entry(v.kind, v.value, v.id, -1)
  }

  method ConvertEntries<V>(events: seq<Event<V>>) returns (es: seq<Entry<V>>)
    ensures |es| == |events| && forall i :: 0 <= i < |es| ==> es[i] == ConvertEntry(events[i])
  {
    es := [];
    for n := 0 to |events|
      invariant |es| == n && forall i :: 0 <= i < n ==> es[i] == ConvertEntry(events[i])
    {
      var kind := if events[n].kind == ReturnEntry then ReturnEntry else CallEntry;
      es := es + [Entry(kind, events[n].value, events[n].id, -1)];
    }
  }

  /** Renumbering paired events makes a well-formed entry list. */
  lemma RenumberedWellFormed<V>(events: seq<Event<V>>, e: seq<Event<V>>, m: map<nat, nat>, count: nat,
                                es: seq<Entry<V>>)
    requires EventsPaired(events) && Renamed(events, e) && Numbering(m, count)
    requires forall i :: 0 <= i < |e| ==> events[i].id in m && e[i].id == m[events[i].id]
    requires forall k :: k in m ==> exists i :: 0 <= i < |e| && events[i].id == k
    requires |es| == |e| && forall i :: 0 <= i < |es| ==> es[i] == ConvertEntry(e[i])
    ensures WellFormed(es) && |es| == 2 * count
  {
    RenamedPaired(events, e);
    var n := |e|;
    assert IdsBefore(e, n) == Below(count) by {
      DenseIds(events, e, m, count);
    }
    CountEvents(e, n);
    AllPaired(e);
    PairedWellFormed(e, es, count);
  }

  lemma DenseIds<V>(events: seq<Event<V>>, e: seq<Event<V>>, m: map<nat, nat>, count: nat)
    requires Numbering(m, count) && |e| == |events|
    requires forall i :: 0 <= i < |e| ==> events[i].id in m && e[i].id == m[events[i].id]
    requires forall k :: k in m ==> exists i :: 0 <= i < |e| && events[i].id == k
    ensures IdsBefore(e, |e|) == Below(count)
  {
    forall x: nat | x < count ensures x in IdsBefore(e, |e|) {
      assert HasNumber(m, x);
      var k :| k in m && m[k] == x;
      var i :| 0 <= i < |e| && events[i].id == k;
      assert e[i].id == x;
    }
  }

  lemma PairKept<V>(e: seq<Event<V>>, es: seq<Entry<V>>, id: nat)
    requires |es| == |e| && IsPaired(e, id) && forall i :: 0 <= i < |es| ==> es[i] == ConvertEntry(e[i])
    ensures HasPair(es, id)
  {
    var i, j :| 0 <= i < j < |e| && EventPair(e, i, j) && e[i].id == id;
    assert es[i].id == id && es[j].id == id;
  }

  lemma IdBound<V>(e: seq<Event<V>>, count: nat, i: nat)
    requires i < |e| && IdsBefore(e, |e|) == Below(count)
    ensures e[i].id < count
  {
    assert e[i].id in IdsBefore(e, |e|);
  }

  lemma PairOrdered<V>(e: seq<Event<V>>, i: nat, j: nat)
    requires EventsPaired(e) && i < j < |e| && e[i].id == e[j].id
    ensures EventPair(e, i, j)
  {
  }

  lemma PairedWellFormed<V>(e: seq<Event<V>>, es: seq<Entry<V>>, count: nat)
    requires EventsPaired(e) && |es| == |e| == 2 * count && IdsBefore(e, |e|) == Below(count)
    requires forall id :: id in Below(count) ==> IsPaired(e, id)
    requires forall i :: 0 <= i < |es| ==> es[i] == ConvertEntry(e[i])
    ensures WellFormed(es)
  {
    hide EventsPaired, IdsBefore, Below, IsPaired, HasPair;
    forall id: nat | id < count ensures HasPair(es, id) {
      assert id in Below(count);
      PairKept(e, es, id);
    }
    forall i | 0 <= i < |es| ensures es[i].id < count {
      IdBound(e, count, i);
    }
    forall i, j | 0 <= i < j < |es| && es[i].id == es[j].id ensures es[i].kind.CallEntry? && es[j].kind.ReturnEntry? {
      PairOrdered(e, i, j);
    }
  }
}
