/**
 How committed entries reach the key/value server: each advance of the commit
 index starts a goroutine that sends its entries one by one and after each one
 sets `lastApplied` (raft/raft_log_replication.go:235-258).  Such goroutines
 overlap: an index may be delivered more than once and `lastApplied` may go
 back.  `log` holds the committed entries, fixed per index, from index 1 on.
 */
module KvDelivery {
  import opened KvStore

  datatype Delivery = Delivery(index: int, op: Op)

  /** A goroutine: what it was started with, how much it has sent, and how much of
      that it has recorded in `lastApplied`. */
  datatype Batch = Batch(first: int, entries: seq<Op>, sent: nat, recorded: nat)

  datatype Applier = Applier(lastApplied: int, batches: seq<Batch>, stream: seq<Delivery>)

  datatype Event = Commit(index: int) | Send(batch: nat) | Record(batch: nat)

  function Next(log: seq<Op>, a: Applier, e: Event): Applier {
    match e
    case Commit(c) =>
      if 0 <= a.lastApplied < c < |log| then
        a.(batches := a.batches + [Batch(a.lastApplied + 1, log[a.lastApplied + 1..c + 1], 0, 0)])
      else a
    case Send(b) =>
      if b < |a.batches| && a.batches[b].recorded == a.batches[b].sent < |a.batches[b].entries| then
        var g := a.batches[b];
        a.(batches := a.batches[b := g.(sent := g.sent + 1)],
           stream := a.stream + [Delivery(g.first + g.sent, g.entries[g.sent])])
      else a
    case Record(b) =>
      if b < |a.batches| && a.batches[b].recorded < a.batches[b].sent then
        var g := a.batches[b];
        a.(batches := a.batches[b := g.(recorded := g.recorded + 1)], lastApplied := g.first + g.recorded)
      else a
  }

  function Run(log: seq<Op>, events: seq<Event>): Applier {
    if events == [] then Applier(0, [], [])
    else Next(log, Run(log, events[..|events| - 1]), events[|events| - 1])
  }

  /** The highest index delivered. */
  function Top(stream: seq<Delivery>): int {
    if stream == [] then 0
    else
      var k := |stream| - 1;
      if stream[k].index > Top(stream[..k]) then stream[k].index else Top(stream[..k])
  }

  function Indices(stream: seq<Delivery>): set<int> {
    set k | 0 <= k < |stream| :: stream[k].index
  }

  function Ops(stream: seq<Delivery>): (ops: seq<Op>)
    ensures |ops| == |stream| && forall k :: 0 <= k < |ops| ==> ops[k] == stream[k].op
  {
    seq(|stream|, k requires 0 <= k < |stream| => stream[k].op)
  }

  ghost predicate DeliveryOk(log: seq<Op>, stream: seq<Delivery>, k: nat)
    requires k < |stream|
  {
    && 1 <= stream[k].index < |log| && stream[k].op == log[stream[k].index]
    && (stream[k].index == 1 || stream[k].index - 1 in Indices(stream[..k]))
  }

  /** Each delivery carries the committed entry, and comes after one of the
      previous index. */
  ghost predicate InOrder(log: seq<Op>, stream: seq<Delivery>) {
    forall k :: 0 <= k < |stream| ==> DeliveryOk(log, stream, k)
  }

  lemma InOrderPrefix(log: seq<Op>, stream: seq<Delivery>, k: nat)
    requires InOrder(log, stream) && k <= |stream|
    ensures InOrder(log, stream[..k])
  {
    forall j | 0 <= j < k ensures DeliveryOk(log, stream[..k], j) {
      assert DeliveryOk(log, stream, j) && stream[..k][..j] == stream[..j];
    }
  }

  lemma InOrderOneMore(log: seq<Op>, stream: seq<Delivery>, d: Delivery)
    requires InOrder(log, stream) && 1 <= d.index < |log| && d.op == log[d.index]
    requires d.index == 1 || d.index - 1 in Indices(stream)
    ensures InOrder(log, stream + [d])
  {
    var s := stream + [d];
    forall j | 0 <= j < |s| ensures DeliveryOk(log, s, j) {
      if j < |stream| {
        assert DeliveryOk(log, stream, j) && s[..j] == stream[..j];
      } else {
        assert s[..j] == stream;
      }
    }
  }

  /** Everything up to the highest index has been delivered, and nothing else. */
  lemma {:induction false} Contiguous(log: seq<Op>, stream: seq<Delivery>, i: int)
    requires InOrder(log, stream)
    ensures 0 <= Top(stream) && (i in Indices(stream) <==> 1 <= i <= Top(stream))
  {
    if stream != [] {
      var k := |stream| - 1;
      InOrderPrefix(log, stream, k);
      assert DeliveryOk(log, stream, k);
      Contiguous(log, stream[..k], i);
      Contiguous(log, stream[..k], stream[k].index - 1);
      assert Indices(stream) == Indices(stream[..k]) + {stream[k].index};
    }
  }

  ghost predicate BatchOk(log: seq<Op>, b: Batch, top: int) {
    && 1 <= b.first && b.first + |b.entries| <= |log| && b.entries == log[b.first..b.first + |b.entries|]
    && b.recorded <= b.sent <= |b.entries| && b.first + b.sent <= top + 1
  }

  ghost predicate ApplierInv(log: seq<Op>, a: Applier) {
    && 0 <= a.lastApplied <= Top(a.stream) && InOrder(log, a.stream)
    && forall k :: 0 <= k < |a.batches| ==> BatchOk(log, a.batches[k], Top(a.stream))
  }

  lemma SendKeeps(log: seq<Op>, a: Applier, b: nat)
    requires ApplierInv(log, a) && b < |a.batches| && a.batches[b].sent < |a.batches[b].entries|
    ensures ApplierInv(log, Next(log, a, Send(b)))
  {
    var g, a' := a.batches[b], Next(log, a, Send(b));
    var d := Delivery(g.first + g.sent, g.entries[g.sent]);
    assert BatchOk(log, g, Top(a.stream));
    assert (a.stream + [d])[..|a.stream|] == a.stream;
    Contiguous(log, a.stream, d.index - 1);
    InOrderOneMore(log, a.stream, d);
    assert Top(a.stream) <= Top(a.stream + [d]) && d.index <= Top(a.stream + [d]);
    forall k | 0 <= k < |a'.batches| ensures BatchOk(log, a'.batches[k], Top(a'.stream)) {
      assert BatchOk(log, a.batches[k], Top(a.stream));
    }
  }

  lemma NextKeeps(log: seq<Op>, a: Applier, e: Event)
    requires ApplierInv(log, a)
    ensures ApplierInv(log, Next(log, a, e))
  {
    if e.Send? && e.batch < |a.batches| && a.batches[e.batch].sent < |a.batches[e.batch].entries| {
      SendKeeps(log, a, e.batch);
    } else {
      var a' := Next(log, a, e);
      forall k | 0 <= k < |a'.batches| ensures BatchOk(log, a'.batches[k], Top(a'.stream)) {
        assert k < |a.batches| ==> BatchOk(log, a.batches[k], Top(a.stream));
      }
      assert e.Record? && e.batch < |a.batches| ==> BatchOk(log, a.batches[e.batch], Top(a.stream));
    }
  }

  lemma {:induction false} RunInv(log: seq<Op>, events: seq<Event>)
    ensures ApplierInv(log, Run(log, events))
  {
    if events != [] {
      RunInv(log, events[..|events| - 1]);
      NextKeeps(log, Run(log, events[..|events| - 1]), events[|events| - 1]);
    }
  }

  /** More entries committed do not matter to what goes on. */
  lemma LogGrows(log: seq<Op>, log': seq<Op>, a: Applier)
    requires ApplierInv(log, a) && log <= log'
    ensures ApplierInv(log', a)
  {
    forall k | 0 <= k < |a.stream| ensures DeliveryOk(log', a.stream, k) {
      assert DeliveryOk(log, a.stream, k);
    }
    forall k | 0 <= k < |a.batches| ensures BatchOk(log', a.batches[k], Top(a.stream)) {
      var b := a.batches[k];
      assert BatchOk(log, b, Top(a.stream));
      assert log'[b.first..b.first + |b.entries|] == log[b.first..b.first + |b.entries|];
    }
  }

  /** Under any interleaving an index is delivered only after the one before. */
  lemma DeliveredInOrder(log: seq<Op>, events: seq<Event>)
    ensures InOrder(log, Run(log, events).stream)
  {
    RunInv(log, events);
  }

  // ----- what was committed is delivered

  function RunFrom(log: seq<Op>, a: Applier, events: seq<Event>): Applier {
    if events == [] then a else Next(log, RunFrom(log, a, events[..|events| - 1]), events[|events| - 1])
  }

  lemma {:induction false} RunAppends(log: seq<Op>, pre: seq<Event>, post: seq<Event>)
    ensures Run(log, pre + post) == RunFrom(log, Run(log, pre), post)
  {
    if post == [] {
      assert pre + post == pre;
    } else {
      var k := |post| - 1;
      RunAppends(log, pre, post[..k]);
      assert (pre + post)[..|pre + post| - 1] == pre + post[..k];
    }
  }

  /** A goroutine keeps the entries it was started with. */
  lemma {:induction false} BatchKept(log: seq<Op>, a: Applier, events: seq<Event>, b: nat)
    requires b < |a.batches|
    ensures var a' := RunFrom(log, a, events);
      b < |a'.batches| && a'.batches[b].first == a.batches[b].first && a'.batches[b].entries == a.batches[b].entries
  {
    if events != [] {
      BatchKept(log, a, events[..|events| - 1], b);
    }
  }

  /** Once the goroutine of a commit of `c` has sent its last entry, everything from
      index 1 to `c` has been delivered, whatever else is going on; and if no goroutine
      was needed it had been delivered before. */
  lemma CommitDelivered(log: seq<Op>, pre: seq<Event>, c: int, post: seq<Event>, i: int)
    requires c < |log| && 1 <= i <= c
    ensures var a, a' := Run(log, pre), Run(log, pre + [Commit(c)] + post);
      if c <= a.lastApplied then i in Indices(a.stream)
      else
        && |a.batches| < |a'.batches| && a'.batches[|a.batches|].first == a.lastApplied + 1
        && |a'.batches[|a.batches|].entries| == c - a.lastApplied
        && (a'.batches[|a.batches|].sent == c - a.lastApplied ==> i in Indices(a'.stream))
  {
    var a, a' := Run(log, pre), Run(log, pre + [Commit(c)] + post);
    RunInv(log, pre);
    RunInv(log, pre + [Commit(c)] + post);
    if c <= a.lastApplied {
      Contiguous(log, a.stream, i);
    } else {
      RunAppends(log, pre, [Commit(c)] + post);
      RunAppends(log, pre, [Commit(c)]);
      RunAppends(log, pre + [Commit(c)], post);
      var a1 := Run(log, pre + [Commit(c)]);
      assert [Commit(c)][..0] == [];
      assert a1 == Next(log, a, Commit(c));
      BatchKept(log, a1, post, |a.batches|);
      assert BatchOk(log, a'.batches[|a.batches|], Top(a'.stream));
      Contiguous(log, a'.stream, i);
    }
  }

  // ----- when goroutines do not overlap

  ghost predicate Finished(b: Batch) { b.recorded == |b.entries| }

  ghost predicate Idle(a: Applier) {
    forall k :: 0 <= k < |a.batches| ==> Finished(a.batches[k])
  }

  /** Every commit comes when no goroutine is at work. */
  ghost predicate Apart(log: seq<Op>, events: seq<Event>) {
    forall k :: 0 <= k < |events| && events[k].Commit? ==> Idle(Run(log, events[..k]))
  }

  /** The log from index 1 on, each entry once. */
  ghost predicate OnceEach(log: seq<Op>, stream: seq<Delivery>) {
    forall k :: 0 <= k < |stream| ==> k + 1 < |log| && stream[k] == Delivery(k + 1, log[k + 1])
  }

  /** At most the last goroutine is at work, and it goes on where the stream ends. */
  ghost predicate ApartInv(log: seq<Op>, a: Applier) {
    && OnceEach(log, a.stream)
    && (forall k :: 0 <= k < |a.batches| - 1 ==> Finished(a.batches[k]))
    && (a.batches == [] ==> a.stream == [] && a.lastApplied == 0)
    && (a.batches != [] ==>
      var b := a.batches[|a.batches| - 1];
      b.first + b.sent == |a.stream| + 1 && a.lastApplied == |a.stream| - (b.sent - b.recorded) &&
      b.recorded <= b.sent <= b.recorded + 1)
  }

  lemma ApartNext(log: seq<Op>, a: Applier, e: Event)
    requires ApplierInv(log, a) && ApartInv(log, a) && (e.Commit? ==> Idle(a))
    ensures ApartInv(log, Next(log, a, e))
  {
    hide InOrder, Top;
    var a', n := Next(log, a, e), |a.batches|;
    assert n > 0 ==> BatchOk(log, a.batches[n - 1], Top(a.stream));
    assert n > 0 && e.Commit? ==> Finished(a.batches[n - 1]);
    assert !e.Commit? && e.batch < n - 1 ==>
      Finished(a.batches[e.batch]) && BatchOk(log, a.batches[e.batch], Top(a.stream));
  }

  /** If goroutines do not overlap, the log is delivered in order, each entry once. */
  lemma {:induction false} ApartOnceEach(log: seq<Op>, events: seq<Event>)
    requires Apart(log, events)
    ensures ApartInv(log, Run(log, events)) && OnceEach(log, Run(log, events).stream)
  {
    if events != [] {
      var k := |events| - 1;
      forall j | 0 <= j < k && events[..k][j].Commit? ensures Idle(Run(log, events[..k][..j])) {
        assert events[..k][..j] == events[..j] && events[j].Commit?;
      }
      ApartOnceEach(log, events[..k]);
      RunInv(log, events[..k]);
      ApartNext(log, Run(log, events[..k]), events[k]);
    }
  }

  /** And with all goroutines finished, exactly up to the index last recorded. */
  lemma ApartDelivers(log: seq<Op>, events: seq<Event>)
    requires Apart(log, events) && Idle(Run(log, events))
    ensures var a := Run(log, events); |a.stream| == a.lastApplied && OnceEach(log, a.stream)
  {
    ApartOnceEach(log, events);
    RunInv(log, events);
    var a := Run(log, events);
    if a.batches != [] {
      assert Finished(a.batches[|a.batches| - 1]);
      assert BatchOk(log, a.batches[|a.batches| - 1], Top(a.stream));
    }
  }

  // ----- a goroutine can always finish

  lemma RunNext(log: seq<Op>, events: seq<Event>, e: Event)
    ensures Run(log, events + [e]) == Next(log, Run(log, events), e)
  {
    assert (events + [e])[..|events|] == events;
  }

  lemma GoesOn(log: seq<Op>, a: Applier, b: nat) returns (e: Event)
    requires ApplierInv(log, a) && b < |a.batches| && !Finished(a.batches[b])
    ensures e == Send(b) || e == Record(b)
    ensures var g, a' := a.batches[b], Next(log, a, e);
      && |a'.batches| == |a.batches| && BatchOk(log, g, Top(a.stream))
      && if e.Send? then g.sent < |g.entries| && a'.batches[b] == g.(sent := g.sent + 1)
         else a'.batches[b] == g.(recorded := g.recorded + 1) && a'.lastApplied == g.first + g.recorded
  {
    hide InOrder, Top;
    var g := a.batches[b];
    assert BatchOk(log, g, Top(a.stream));
    e := if g.recorded < g.sent then Record(b) else Send(b);
  }

  /** Whatever the others are doing, it can send and record the entries it has left, and
      then its last index is recorded. */
  lemma {:induction false} CanFinish(log: seq<Op>, events: seq<Event>, b: nat) returns (more: seq<Event>)
    requires b < |Run(log, events).batches|
    ensures forall e :: e in more ==> e == Send(b) || e == Record(b)
    ensures Finished(Run(log, events).batches[b]) ==> more == []
    ensures var g, a := Run(log, events).batches[b], Run(log, events + more);
      && b < |a.batches| && a.batches[b] == g.(sent := |g.entries|, recorded := |g.entries|)
      && (!Finished(g) ==> a.lastApplied == g.first + |g.entries| - 1)
    decreases var g := Run(log, events).batches[b]; 2 * |g.entries| - g.sent - g.recorded
  {
    RunInv(log, events);
    var a := Run(log, events);
    if Finished(a.batches[b]) {
      more := [];
      assert events + more == events;
      assert BatchOk(log, a.batches[b], Top(a.stream));
    } else {
      var e := GoesOn(log, a, b);
      RunNext(log, events, e);
      hide Run, Next, ApplierInv, Top;
      var rest := CanFinish(log, events + [e], b);
      more := [e] + rest;
      assert events + more == events + [e] + rest;
      assert rest == [] ==> events + [e] + rest == events + [e];
    }
  }

  /** The entries of the log from index 1 to `top`. */
  function UpTo(log: seq<Op>, top: int): seq<Op> {
    if 1 <= top < |log| then log[1..top + 1] else []
  }

  lemma OneMorePass(log: seq<Op>, i: int, top: int)
    requires 1 <= i < |log| && 0 <= top < |log| && i <= top + 1
    ensures ApplyOp(ApplyAll(EMPTY, UpTo(log, top)), log[i]) == ApplyAll(EMPTY, UpTo(log, if i > top then i else top))
  {
    if i <= top {
      assert UpTo(log, top)[i - 1] == log[i];
      Settled(EMPTY, UpTo(log, top), log[i]);
    } else {
      assert UpTo(log, i) == UpTo(log, top) + [log[i]];
      ApplyOneMore(EMPTY, UpTo(log, top), log[i]);
    }
  }

  lemma OpsLast(stream: seq<Delivery>)
    requires stream != []
    ensures Ops(stream) == Ops(stream[..|stream| - 1]) + [stream[|stream| - 1].op]
  {
  }

  lemma TopLast(stream: seq<Delivery>)
    requires stream != []
    ensures var i, top := stream[|stream| - 1].index, Top(stream[..|stream| - 1]);
      Top(stream) == if i > top then i else top
  {
  }

  lemma LastDelivery(log: seq<Op>, stream: seq<Delivery>)
    requires InOrder(log, stream) && stream != []
    ensures var k := |stream| - 1;
      var i, top := stream[k].index, Top(stream[..k]);
      1 <= i < |log| && 0 <= top && i <= top + 1 && InOrder(log, stream[..k]) && stream[k].op == log[i]
  {
    var k := |stream| - 1;
    assert DeliveryOk(log, stream, k);
    InOrderPrefix(log, stream, k);
    hide InOrder, Top, Indices;
    Contiguous(log, stream[..k], stream[k].index - 1);
  }

  /** Whatever is delivered repeatedly, the state is that of one pass over the log. */
  lemma {:induction false} OnePass(log: seq<Op>, stream: seq<Delivery>)
    requires InOrder(log, stream)
    ensures 0 <= Top(stream) && (stream != [] ==> Top(stream) < |log|)
    ensures ApplyAll(EMPTY, Ops(stream)) == ApplyAll(EMPTY, UpTo(log, Top(stream)))
  {
    if stream == [] {
      assert Ops(stream) == [];
    } else {
      hide ApplyAll, ApplyOp, UpTo, InOrder, Top, Ops;
      var k := |stream| - 1;
      LastDelivery(log, stream);
      OpsLast(stream);
      TopLast(stream);
      OnePass(log, stream[..k]);
      ApplyOneMore(EMPTY, Ops(stream[..k]), log[stream[k].index]);
      NoneYet(stream[..k]);
      OneMorePass(log, stream[k].index, Top(stream[..k]));
    }
  }

  lemma NoneYet(stream: seq<Delivery>)
    ensures stream == [] ==> Top(stream) == 0
  {
  }

  /** Overlapping goroutines leave the server in the state of one pass. */
  lemma OverlapIsOnePass(log: seq<Op>, events: seq<Event>)
    ensures var stream := Run(log, events).stream;
      ApplyAll(EMPTY, Ops(stream)) == ApplyAll(EMPTY, UpTo(log, Top(stream)))
  {
    DeliveredInOrder(log, events);
    OnePass(log, Run(log, events).stream);
  }

  /** One goroutine can deliver a whole log to a server that has nothing yet. */
  lemma DeliversAll(log: seq<Op>) returns (events: seq<Event>)
    requires |log| > 1
    ensures var stream := RunFrom(log, Applier(0, [], []), events).stream;
      && Top(stream) == |log| - 1 && |log| - 1 in Indices(stream) && InOrder(log, stream)
      && ApplyAll(EMPTY, Ops(stream)) == ApplyAll(EMPTY, log[1..])
  {
    var c := |log| - 1;
    RunNext(log, [], Commit(c));
    assert [] + [Commit(c)] == [Commit(c)];
    var more := CanFinish(log, [Commit(c)], 0);
    events := [Commit(c)] + more;
    CommitDelivered(log, [], c, more, c);
    assert [] + [Commit(c)] + more == events == [] + events;
    RunAppends(log, [], events);
    DeliveredInOrder(log, events);
    hide Next, RunFrom, InOrder, Top, ApplyAll;
    var stream := Run(log, events).stream;
    Contiguous(log, stream, c);
    OnePass(log, stream);
    NoneYet(stream);
    assert log[1..c + 1] == log[1..];
  }
}
