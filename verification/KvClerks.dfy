/**
 Clerks and duplicate filtering (kvraft/client.go:46-97, kvraft/server.go:48-79,
 176-186).  A clerk has one request at a time and resends it until some server
 has applied it; each copy may be committed, once or more, at any later time.
 */
module KvClerks {
  import opened Common
  import opened KvStore
  import opened KvDelivery

  /** The client side: the retry loop of `Get` and `PutAppend`. */
  class Clerk {
    const clientId: int
    const servers: nat
    var leaderId: nat
    var lastRequestId: int

    ghost predicate Valid()
      reads this
    {
      leaderId < servers
    }

    constructor (clientId: int, servers: nat)
      requires servers > 0
      ensures Valid() && this.clientId == clientId && this.servers == servers && leaderId == 0 && lastRequestId == 0
    {
      this.clientId, this.servers := clientId, servers;
      leaderId, lastRequestId := 0, 0;
    }

    /** Ask server after server until one answers as the right leader; `answers` are
        the outcomes of the calls.  Every call carries the same operation, with the
        next number; the number is used up only by success. */
    method Call(key: string, value: string, name: string, answers: seq<bool>) returns (sent: seq<(nat, Op)>, done: bool)
      requires Valid()
      modifies this`leaderId, this`lastRequestId
      ensures Valid()
      ensures forall k :: 0 <= k < |sent| ==>
        sent[k] == ((old(leaderId) + k) % servers, Op(key, value, name, clientId, old(lastRequestId) + 1))
      ensures done ==> 0 < |sent| <= |answers| && answers[|sent| - 1] && leaderId == sent[|sent| - 1].0
      ensures !done ==> |sent| == |answers| && leaderId == (old(leaderId) + |answers|) % servers
      ensures forall k :: 0 <= k < |sent| && (done ==> k < |sent| - 1) ==> !answers[k]
      ensures lastRequestId == old(lastRequestId) + if done then 1 else 0
    {
      var requestId := lastRequestId + 1;
      sent := [];
      while |sent| < |answers|
        invariant |sent| <= |answers| && lastRequestId == old(lastRequestId)
        invariant leaderId == (old(leaderId) + |sent|) % servers
        invariant forall k :: 0 <= k < |sent| ==>
          sent[k] == ((old(leaderId) + k) % servers, Op(key, value, name, clientId, requestId)) && !answers[k]
        decreases |answers| - |sent|
      {
        var k := |sent|;
        sent := sent + [(leaderId, Op(key, value, name, clientId, requestId))];
        if answers[k] {
          lastRequestId := requestId;
          return sent, true;
        }
        NextServer(old(leaderId) + k, servers);
        leaderId := (leaderId + 1) % servers;
      }
      return sent, false;
    }
  }

  lemma NextServer(a: nat, n: nat)
    requires n > 0
    ensures (a % n + 1) % n == (a + 1) % n
  {
    var q, r := a / n, a % n;
    assert a + 1 == n * q + (r + 1);
    if r + 1 == n {
      assert a + 1 == n * (q + 1);
      ModUnique(a + 1, n, q + 1, 0);
      ModUnique(n, n, 1, 0);
    } else {
      ModUnique(a + 1, n, q, r + 1);
      ModUnique(r + 1, n, 0, r + 1);
    }
  }

  lemma ModUnique(a: nat, n: nat, q: int, r: nat)
    requires n > 0 && a == n * q + r && r < n
    ensures a % n == r
  {
    var d := a / n - q;
    assert n * d == r - a % n;
    Multiple(n, d);
  }

  lemma Multiple(n: nat, d: int)
    ensures d >= 1 ==> n * d >= n
    ensures d <= -1 ==> n * d + n <= 0
  {
  }

  // ----- the clerks, the network and the committed log

  datatype ClerkState = ClerkState(last: int, current: Option<Op>)

  datatype System = System(clerks: map<int, ClerkState>, submitted: set<Op>, committed: seq<Op>)

  datatype Step =
    | Issue(client: int, key: string, value: string, name: string)
    | Submit(client: int)
    | Commit(op: Op)
    | Ack(client: int)

  function ClerkOf(sys: System, c: int): ClerkState {
    if c in sys.clerks then sys.clerks[c] else ClerkState(0, None)
  }

  /** The request numbered `r` of client `c` is in the log. */
  predicate Occurs(log: seq<Op>, c: int, r: int) {
    exists k :: 0 <= k < |log| && log[k].client == c && log[k].request == r
  }

  /** A clerk goes on to its next request only after the last one was applied by a
      server, that is, is in the committed log. */
  function Next(sys: System, step: Step): System {
    match step
    case Issue(c, key, value, name) =>
      var k := ClerkOf(sys, c);
      if k.current.None? then
        sys.(clerks := sys.clerks[c := k.(current := Some(Op(key, value, name, c, k.last + 1)))])
      else sys
    case Submit(c) =>
      if ClerkOf(sys, c).current.Some? then sys.(submitted := sys.submitted + {ClerkOf(sys, c).current.value}) else sys
    case Commit(op) =>
      if op in sys.submitted then sys.(committed := sys.committed + [op]) else sys
    case Ack(c) =>
      var k := ClerkOf(sys, c);
      if k.current.Some? && Occurs(sys.committed, c, k.current.value.request) then
        sys.(clerks := sys.clerks[c := ClerkState(k.current.value.request, None)])
      else sys
  }

  function Run(steps: seq<Step>): System {
    if steps == [] then System(map[], {}, [])
    else Next(Run(steps[..|steps| - 1]), steps[|steps| - 1])
  }

  ghost predicate EntryOk(log: seq<Op>, k: nat)
    requires k < |log|
  {
    log[k].request >= 1 && forall r :: 1 <= r < log[k].request ==> Occurs(log[..k], log[k].client, r)
  }

  /** Requests are numbered from 1, none comes before its predecessor, and a number
      always means the same request. */
  ghost predicate ClerkLog(log: seq<Op>) {
    && (forall k :: 0 <= k < |log| ==> EntryOk(log, k))
    && (forall j, k :: 0 <= j < |log| && 0 <= k < |log| && SameId(log[j], log[k]) ==> log[j] == log[k])
  }

  predicate SameId(a: Op, b: Op) { a.client == b.client && a.request == b.request }

  ghost predicate ClerkOk(sys: System, c: int) {
    var k := ClerkOf(sys, c);
    && 0 <= k.last && (forall r :: 1 <= r <= k.last ==> Occurs(sys.committed, c, r))
    && (k.current.Some? ==> k.current.value.client == c && k.current.value.request == k.last + 1)
  }

  ghost predicate SubmittedOk(sys: System, op: Op) {
    var k := ClerkOf(sys, op.client);
    op.request >= 1 && (op.request <= k.last || k.current == Some(op))
  }

  ghost predicate SystemInv(sys: System) {
    && (forall c :: ClerkOk(sys, c))
    && (forall op :: op in sys.submitted ==> SubmittedOk(sys, op))
    && (forall a, b :: a in sys.submitted && b in sys.submitted && SameId(a, b) ==> a == b)
    && (forall k :: 0 <= k < |sys.committed| ==> sys.committed[k] in sys.submitted)
    && ClerkLog(sys.committed)
  }

  lemma OccursLater(log: seq<Op>, more: seq<Op>, c: int, r: int)
    requires Occurs(log, c, r)
    ensures Occurs(log + more, c, r)
  {
    var k :| 0 <= k < |log| && log[k].client == c && log[k].request == r;
    assert (log + more)[k] == log[k];
  }

  lemma CommitKeeps(sys: System, op: Op)
    requires SystemInv(sys) && op in sys.submitted
    ensures SystemInv(Next(sys, Step.Commit(op)))
  {
    var sys' := Next(sys, Step.Commit(op));
    var log, log' := sys.committed, sys'.committed;
    forall c ensures ClerkOk(sys', c) {
      assert ClerkOk(sys, c);
      forall r | 1 <= r <= ClerkOf(sys, c).last ensures Occurs(log', c, r) {
        OccursLater(log, [op], c, r);
      }
    }
    forall o | o in sys'.submitted ensures SubmittedOk(sys', o) {
      assert SubmittedOk(sys, o);
    }
    forall k | 0 <= k < |log'| ensures EntryOk(log', k) {
      if k < |log| {
        assert EntryOk(log, k) && log'[..k] == log[..k];
      } else {
        assert ClerkOk(sys, op.client) && SubmittedOk(sys, op) && log'[..k] == log;
      }
    }
  }

  lemma NextKeeps(sys: System, step: Step)
    requires SystemInv(sys)
    ensures SystemInv(Next(sys, step))
  {
    if step.Commit? && step.op in sys.submitted {
      CommitKeeps(sys, step.op);
    } else if !step.Commit? {
      hide ClerkLog;
      var sys' := Next(sys, step);
      assert ClerkOk(sys, step.client);
      forall c ensures ClerkOk(sys', c) {
        assert ClerkOk(sys, c);
      }
      forall op | op in sys'.submitted ensures SubmittedOk(sys', op) {
        assert op in sys.submitted ==> SubmittedOk(sys, op);
      }
      forall a, b | a in sys'.submitted && b in sys'.submitted && SameId(a, b) ensures a == b {
        assert a in sys.submitted ==> SubmittedOk(sys, a);
        assert b in sys.submitted ==> SubmittedOk(sys, b);
      }
    }
  }

  /** What the committed log looks like, in every run. */
  lemma {:induction false} RunInv(steps: seq<Step>)
    ensures SystemInv(Run(steps))
  {
    if steps != [] {
      RunInv(steps[..|steps| - 1]);
      NextKeeps(Run(steps[..|steps| - 1]), steps[|steps| - 1]);
    }
  }

  lemma ClerkLogPrefix(log: seq<Op>, k: nat)
    requires ClerkLog(log) && k <= |log|
    ensures ClerkLog(log[..k])
  {
    forall j | 0 <= j < k ensures EntryOk(log[..k], j) {
      assert EntryOk(log, j) && log[..k][..j] == log[..j];
    }
  }

  // ----- the filter

  /** The filter lets the entry at `k` through. */
  predicate Applied(log: seq<Op>, k: nat)
    requires k < |log|
  {
    Fresh(ApplyAll(EMPTY, log[..k]).last, log[k])
  }

  /** The number kept for a client stands for all the requests seen from it. */
  ghost predicate Summarises(last: map<int, int>, log: seq<Op>, c: int) {
    && (c in last ==> last[c] >= 1)
    && forall r :: Occurs(log, c, r) <==> c in last && 1 <= r <= last[c]
  }

  lemma {:induction false} NumberSummarises(log: seq<Op>, c: int)
    requires ClerkLog(log)
    ensures Summarises(ApplyAll(EMPTY, log).last, log, c)
  {
    if log != [] {
      var k := |log| - 1;
      ClerkLogPrefix(log, k);
      NumberSummarises(log[..k], c);
      assert EntryOk(log, k);
      assert log == log[..k] + [log[k]];
      SummaryGrows(ApplyAll(EMPTY, log[..k]).last, log[..k], log[k], c);
    }
  }

  lemma OccursOneMore(log: seq<Op>, op: Op, c: int, r: int)
    ensures Occurs(log + [op], c, r) <==> Occurs(log, c, r) || (op.client == c && op.request == r)
  {
    if Occurs(log, c, r) {
      OccursLater(log, [op], c, r);
    }
    if op.client == c && op.request == r {
      assert (log + [op])[|log|] == op;
    }
  }

  lemma SummaryGrows(last: map<int, int>, log: seq<Op>, op: Op, c: int)
    requires Summarises(last, log, c)
    requires op.request >= 1 && forall r :: 1 <= r < op.request ==> Occurs(log, op.client, r)
    ensures Summarises(if Fresh(last, op) then last[op.client := op.request] else last, log + [op], c)
  {
    hide Occurs;
    var last' := if Fresh(last, op) then last[op.client := op.request] else last;
    forall r ensures Occurs(log + [op], c, r) <==> c in last' && 1 <= r <= last'[c] {
      OccursOneMore(log, op, c, r);
      if op.client == c && op.request > 1 {
        assert Occurs(log, c, op.request - 1);
      }
    }
  }

  /** In the log of clerks, the filter lets through exactly the first occurrences. */
  lemma FirstOccurrencesApplied(log: seq<Op>, k: nat)
    requires ClerkLog(log) && k < |log|
    ensures Applied(log, k) <==> !Occurs(log[..k], log[k].client, log[k].request)
  {
    ClerkLogPrefix(log, k);
    NumberSummarises(log[..k], log[k].client);
    assert EntryOk(log, k);
  }

  lemma FirstOccurrence(log: seq<Op>, c: int, r: int) returns (k: nat)
    requires Occurs(log, c, r)
    ensures k < |log| && log[k].client == c && log[k].request == r && !Occurs(log[..k], c, r)
  {
    k :| 0 <= k < |log| && log[k].client == c && log[k].request == r;
    if Occurs(log[..k], c, r) {
      k := FirstOccurrence(log[..k], c, r);
    }
  }

  lemma EarlierOccurs(log: seq<Op>, j: nat, k: nat)
    requires j < k <= |log|
    ensures Occurs(log[..k], log[j].client, log[j].request)
  {
    assert log[..k][j] == log[j];
  }

  /** Every committed request is applied exactly once. */
  lemma AppliedOnce(log: seq<Op>, c: int, r: int) returns (k: nat)
    requires ClerkLog(log) && Occurs(log, c, r)
    ensures k < |log| && log[k].client == c && log[k].request == r && Applied(log, k)
    ensures forall j :: 0 <= j < |log| && log[j].client == c && log[j].request == r && Applied(log, j) ==> j == k
  {
    hide Occurs, ClerkLog, Applied;
    k := FirstOccurrence(log, c, r);
    FirstOccurrencesApplied(log, k);
    forall j | 0 <= j < |log| && log[j].client == c && log[j].request == r && Applied(log, j) ensures j == k {
      FirstOccurrencesApplied(log, j);
      if k < j {
        EarlierOccurs(log, k, j);
      } else if j < k {
        EarlierOccurs(log, j, k);
      }
    }
  }

  /** A client's requests are applied in the order of their numbers, without gaps. */
  lemma AppliedInOrder(log: seq<Op>, j: nat, k: nat)
    requires ClerkLog(log) && j < k < |log| && Applied(log, k) && log[j].client == log[k].client
    ensures log[j].request < log[k].request
    ensures forall r :: 1 <= r < log[k].request ==> Occurs(log[..k], log[k].client, r)
  {
    assert EntryOk(log, j) && EntryOk(log, k);
    assert log[..j] + log[j..k] == log[..k];
    hide Occurs, ClerkLog, Applied;
    FirstOccurrencesApplied(log, k);
    EarlierOccurs(log, j, k);
    if log[k].request < log[j].request {
      OccursLater(log[..j], log[j..k], log[k].client, log[k].request);
    }
  }

  /** The reference: a filter that remembers the id of every request seen. */
  function RememberAll(log: seq<Op>): (map<string, string>, set<(int, int)>) {
    if log == [] then (map[], {})
    else
      var op := log[|log| - 1];
      var (db, seen) := RememberAll(log[..|log| - 1]);
      if (op.client, op.request) in seen then (db, seen)
      else (Execute(db, op), seen + {(op.client, op.request)})
  }

  lemma {:induction false} SeenOccurs(log: seq<Op>, c: int, r: int)
    ensures (c, r) in RememberAll(log).1 <==> Occurs(log, c, r)
  {
    if log != [] {
      var k := |log| - 1;
      SeenOccurs(log[..k], c, r);
      assert log == log[..k] + [log[k]];
      OccursOneMore(log[..k], log[k], c, r);
    }
  }

  /** One number per client filters like the memory of every id. */
  lemma {:induction false} FilterRefines(log: seq<Op>)
    requires ClerkLog(log)
    ensures ApplyAll(EMPTY, log).db == RememberAll(log).0
  {
    if log != [] {
      var k := |log| - 1;
      ClerkLogPrefix(log, k);
      FilterRefines(log[..k]);
      FirstOccurrencesApplied(log, k);
      SeenOccurs(log[..k], log[k].client, log[k].request);
    }
  }

  lemma CommittedLogs(steps: seq<Step>)
    ensures ClerkLog(Run(steps).committed)
  {
    RunInv(steps);
  }

  /** Whatever the clerks, the network and the apply goroutines do, a server's data
      is that of applying each request of the log it has received once. */
  lemma ExactlyOnce(steps: seq<Step>, events: seq<Event>, sentinel: Op)
    ensures var log := [sentinel] + Run(steps).committed;
      var stream := KvDelivery.Run(log, events).stream;
      ApplyAll(EMPTY, Ops(stream)).db == RememberAll(UpTo(log, Top(stream))).0
  {
    hide Run, ApplyAll, RememberAll, Top, UpTo, ClerkLog, KvDelivery.Run;
    var committed := Run(steps).committed;
    var log := [sentinel] + committed;
    var stream := KvDelivery.Run(log, events).stream;
    OverlapIsOnePass(log, events);
    CommittedLogs(steps);
    CommittedPrefix(sentinel, committed, Top(stream));
    FilterRefines(UpTo(log, Top(stream)));
  }

  lemma CommittedPrefix(sentinel: Op, committed: seq<Op>, top: int)
    requires ClerkLog(committed)
    ensures ClerkLog(UpTo([sentinel] + committed, top))
  {
    if 1 <= top <= |committed| {
      assert UpTo([sentinel] + committed, top) == committed[..top];
      ClerkLogPrefix(committed, top);
    }
  }
}
