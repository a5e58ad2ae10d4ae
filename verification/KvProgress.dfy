/**
 Requests can be answered: from every state of the service, whatever was lost, was
 resent or has restarted, a clerk that waits can get its answer
 (kvraft/client.go:42-98, kvraft/server.go:48-124, 167-197).
 */
module KvProgress {
  import opened Common
  import opened KvStore
  import opened KvClerks
  import opened KvOrder
  import opened KvService
  import KvLocality
  import Delivery = KvDelivery

  lemma RunOne(n: nat, moves: seq<Move>, move: Move)
    ensures KvService.Run(n, moves + [move]) == KvService.Next(KvService.Run(n, moves), move)
  {
    assert (moves + [move])[..|moves|] == moves;
  }

  lemma {:induction false} RunCounts(n: nat, moves: seq<Move>)
    ensures |KvService.Run(n, moves).lens| == |moves| && |KvService.Run(n, moves).servers| == n
  {
    if moves != [] {
      RunCounts(n, moves[..|moves| - 1]);
      hide KvClerks.Next, Delivery.Next, Received, ReadValue;
    }
  }

  /** All of a server's events, one after the other. */
  function Each(v: nat, events: seq<Delivery.Event>): (r: seq<Move>)
    ensures |r| == |events| && forall i :: 0 <= i < |r| ==> r[i] == Delivering(v, events[i])
  {
    seq(|events|, i requires 0 <= i < |events| => Delivering(v, events[i]))
  }

  lemma OneDelivered(s: Service, v: nat, e: Delivery.Event)
    requires v < |s.servers|
    ensures var s' := KvService.Next(s, Delivering(v, e));
      && s' == s.(servers := s'.servers, lens := s'.lens) && |s'.servers| == |s.servers|
      && s'.servers[v] == Delivery.Next(LogOf(s.sys), s.servers[v], e)
  {
    hide Delivery.Next;
  }

  lemma {:induction false} EachDelivered(n: nat, moves: seq<Move>, v: nat, events: seq<Delivery.Event>)
    requires v < n
    ensures var s, s' := KvService.Run(n, moves), KvService.Run(n, moves + Each(v, events));
      && v < |s.servers| == |s'.servers|
      && s' == s.(servers := s'.servers, lens := s'.lens)
      && s'.servers[v] == Delivery.RunFrom(LogOf(s.sys), s.servers[v], events)
  {
    hide KvService.Run, KvService.Next, Delivery.Next;
    RunCounts(n, moves);
    if events == [] {
      assert moves + Each(v, events) == moves;
    } else {
      var k := |events| - 1;
      EachDelivered(n, moves, v, events[..k]);
      assert moves + Each(v, events) == moves + Each(v, events[..k]) + [Delivering(v, events[k])];
      RunOne(n, moves + Each(v, events[..k]), Delivering(v, events[k]));
      OneDelivered(KvService.Run(n, moves + Each(v, events[..k])), v, events[k]);
    }
  }

  /** The answer to `op` after everything in the log. */
  function Reading(committed: seq<Op>, op: Op): Answer {
    Answer(op, if op.name == "Get" then KvLocality.Lookup(ApplyAll(EMPTY, committed).db, op.key) else "", |committed|)
  }

  /** The request is sent and committed, and a server restarts. */
  lemma Commits(n: nat, moves: seq<Move>, c: int) returns (more: seq<Move>)
    requires n > 0 && ClerkOf(KvService.Run(n, moves).sys, c).current.Some?
    ensures var s, s' := KvService.Run(n, moves), KvService.Run(n, moves + more);
      var op := ClerkOf(s.sys, c).current.value;
      && s'.sys == s.sys.(submitted := s'.sys.submitted, committed := s.sys.committed + [op]) && op in s'.sys.submitted
      && s'.done == s.done && s'.calls == s.calls
      && s'.servers != [] && s'.servers[0] == Delivery.Applier(0, [], [])
  {
    RunCounts(n, moves);
    var op := ClerkOf(KvService.Run(n, moves).sys, c).current.value;
    RunOne(n, moves, Submitting(c));
    RunOne(n, moves + [Submitting(c)], Committing(op));
    RunOne(n, moves + [Submitting(c)] + [Committing(op)], Restarting(0));
    hide KvService.Run;
    more := [Submitting(c)] + [Committing(op)] + [Restarting(0)];
    assert moves + more == moves + [Submitting(c)] + [Committing(op)] + [Restarting(0)];
  }

  /** What a server with the whole log answers. */
  lemma Answers(s: Service, op: Op)
    requires s.servers != [] && op in s.sys.submitted && s.sys.committed != []
    requires s.sys.committed[|s.sys.committed| - 1] == op
    requires var stream, log := s.servers[0].stream, LogOf(s.sys);
      && Delivery.Top(stream) == |log| - 1 && |log| - 1 in Delivery.Indices(stream) && Delivery.InOrder(log, stream)
      && ApplyAll(EMPTY, Delivery.Ops(stream)) == ApplyAll(EMPTY, log[1..])
    ensures var s' := KvService.Next(s, Answering(0, op));
      s' == s.(answers := s.answers + {Reading(s.sys.committed, op)}, lens := s'.lens)
  {
    hide ApplyAll, Delivery.Top, Delivery.Ops;
    var stream, log := s.servers[0].stream, LogOf(s.sys);
    assert log[1..] == s.sys.committed;
    var k :| 0 <= k < |stream| && stream[k].index == |log| - 1;
    assert Delivery.DeliveryOk(log, stream, k);
    assert Received(stream, op);
  }

  lemma Returns(s: Service, c: int, a: Answer)
    requires ServiceInv(s) && ClerkOf(s.sys, c).current == Some(a.op) && a in s.answers
    ensures c in s.calls && a.op.client == c
    ensures var s' := KvService.Next(s, Returning(a));
      && s'.done == s.done + [Completed(a, s.calls[c], |s.lens|)] && s'.sys.committed == s.sys.committed
      && ClerkOf(s'.sys, c) == ClerkState(a.op.request, None)
  {
    assert WaitingOk(s, c) && ClerkOk(s.sys, c) && AnswerOk(s.sys, a);
    hide ServiceInv;
    var k :| 0 <= k < |s.sys.committed[..a.prefix]| && s.sys.committed[..a.prefix][k].client == c &&
             s.sys.committed[..a.prefix][k].request == a.op.request;
    assert s.sys.committed[k] == s.sys.committed[..a.prefix][k];
    assert Occurs(s.sys.committed, c, a.op.request);
  }

  /** From every state, a waiting clerk can get the answer to its request: read after
      everything committed, with the request at the end of it. */
  lemma CanAnswer(n: nat, moves: seq<Move>, c: int) returns (more: seq<Move>)
    requires n > 0 && ClerkOf(KvService.Run(n, moves).sys, c).current.Some?
    ensures var s, s' := KvService.Run(n, moves), KvService.Run(n, moves + more);
      var op, log := ClerkOf(s.sys, c).current.value, s'.sys.committed;
      && c in s.calls && more != [] && log == s.sys.committed + [op]
      && s'.done == s.done + [Completed(Reading(log, op), s.calls[c], |moves + more| - 1)]
      && ClerkOf(s'.sys, c) == ClerkState(op.request, None)
  {
    hide KvService.Run, KvService.Next, ServiceInv, Delivery.RunFrom, ApplyAll, Delivery.InOrder, Delivery.Top;
    var op := ClerkOf(KvService.Run(n, moves).sys, c).current.value;
    var first := Commits(n, moves, c);
    var s1 := KvService.Run(n, moves + first);
    var events := Delivery.DeliversAll(LogOf(s1.sys));
    var then2 := moves + first + Each(0, events);
    EachDelivered(n, moves + first, 0, events);
    var s2 := KvService.Run(n, then2);
    Answers(s2, op);
    RunOne(n, then2, Answering(0, op));
    var a := Reading(s1.sys.committed, op);
    KvService.RunInv(n, then2 + [Answering(0, op)]);
    RunCounts(n, then2 + [Answering(0, op)]);
    Returns(KvService.Run(n, then2 + [Answering(0, op)]), c, a);
    RunOne(n, then2 + [Answering(0, op)], Returning(a));
    more := first + Each(0, events) + [Answering(0, op)] + [Returning(a)];
    assert moves + more == then2 + [Answering(0, op)] + [Returning(a)];
  }

  /** So can one that has nothing to wait for, with any request. */
  lemma CanServe(n: nat, moves: seq<Move>, c: int, key: string, value: string, name: string)
    returns (more: seq<Move>)
    requires n > 0 && ClerkOf(KvService.Run(n, moves).sys, c).current.None?
    requires name == "Get" || name == "Put" || name == "Append"
    ensures var s, s' := KvService.Run(n, moves), KvService.Run(n, moves + more);
      var op, log := Op(key, value, name, c, ClerkOf(s.sys, c).last + 1), s'.sys.committed;
      && log == s.sys.committed + [op]
      && s'.done == s.done + [Completed(Reading(log, op), |moves|, |moves + more| - 1)]
  {
    RunOne(n, moves, Issuing(c, key, value, name));
    RunCounts(n, moves);
    hide KvService.Run, Reading;
    var rest := CanAnswer(n, moves + [Issuing(c, key, value, name)], c);
    more := [Issuing(c, key, value, name)] + rest;
    assert moves + more == moves + [Issuing(c, key, value, name)] + rest;
  }
}
