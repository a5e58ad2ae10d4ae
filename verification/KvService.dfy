/**
 The whole key/value service: clerks that resend, a committed log with duplicates,
 servers that receive it through overlapping apply goroutines and restart, and
 answers read from a server's data at any time after the request reached it
 (kvraft/client.go:42-98, kvraft/server.go:48-124, 167-197).  Its histories are
 linearizable for the checker's key/value model.  The entry at each committed
 index is fixed; time counts the moves.
 */
module KvService {
  import opened Common
  import opened Histories
  import opened KvLocality
  import opened KvStore
  import opened KvClerks
  import opened KvOrder
  import Delivery = KvDelivery

  /** What a server answers: a value, for a get, after `prefix` entries. */
  datatype Answer = Answer(op: Op, value: string, prefix: nat)

  datatype Completed = Completed(answer: Answer, call: nat, ret: nat)

  datatype Service = Service(
    sys: System,                        // clerks, copies on their way, committed log
    servers: seq<Delivery.Applier>,
    answers: set<Answer>,               // on their way to the clerks
    calls: map<int, nat>,               // when each clerk made its latest request
    done: seq<Completed>,               // requests answered
    lens: seq<nat>)                     // length of the committed log at each move

  datatype Move =
    | Issuing(client: int, key: string, value: string, name: string)
    | Submitting(client: int)
    | Committing(op: Op)
    | Delivering(server: nat, event: Delivery.Event)
    | Restarting(server: nat)
    | Answering(server: nat, op: Op)
    | Returning(answer: Answer)

  /** Index 0 of the log is never applied. */
  const NOTHING := Op("", "", "", 0, 0)

  function LogOf(sys: System): seq<Op> { [NOTHING] + sys.committed }

  /** The request has reached the server, in any of its copies. */
  predicate Received(stream: seq<Delivery.Delivery>, op: Op) {
    exists k :: 0 <= k < |stream| && SameId(stream[k].op, op)
  }

  function ReadValue(stream: seq<Delivery.Delivery>, op: Op): string {
    if op.name == "Get" then Lookup(ApplyAll(EMPTY, Delivery.Ops(stream)).db, op.key) else ""
  }

  function Do(s: Service, move: Move): Service {
    match move
    case Issuing(c, key, value, name) =>
      if ClerkOf(s.sys, c).current.None? && Known(Op(key, value, name, c, 0)) then
        s.(sys := KvClerks.Next(s.sys, Issue(c, key, value, name)), calls := s.calls[c := |s.lens|])
      else s
    case Submitting(c) => s.(sys := KvClerks.Next(s.sys, Submit(c)))
    case Committing(op) => s.(sys := KvClerks.Next(s.sys, Step.Commit(op)))
    case Delivering(v, e) =>
      if v < |s.servers| then s.(servers := s.servers[v := Delivery.Next(LogOf(s.sys), s.servers[v], e)]) else s
    case Restarting(v) =>
      if v < |s.servers| then s.(servers := s.servers[v := Delivery.Applier(0, [], [])]) else s
    case Answering(v, op) =>
      if v < |s.servers| && op in s.sys.submitted && Received(s.servers[v].stream, op) then
        var stream := s.servers[v].stream;
        var top := Delivery.Top(stream);
        s.(answers := s.answers + {Answer(op, ReadValue(stream, op), if top < 0 then 0 else top)})
      else s
    case Returning(a) =>
      var c := a.op.client;
      if ClerkOf(s.sys, c).current == Some(a.op) && a in s.answers && c in s.calls then
        s.(sys := KvClerks.Next(s.sys, Ack(c)), done := s.done + [Completed(a, s.calls[c], |s.lens|)])
      else s
  }

  function Next(s: Service, move: Move): Service {
    Do(s, move).(lens := s.lens + [|s.sys.committed|])
  }

  function Init(n: nat): Service {
    Service(System(map[], {}, []), seq(n, _ => Delivery.Applier(0, [], [])), {}, map[], [], [])
  }

  function Run(n: nat, moves: seq<Move>): Service {
    if moves == [] then Init(n) else Next(Run(n, moves[..|moves| - 1]), moves[|moves| - 1])
  }

  // ----- the history

  function Answered(d: Completed): KvOp {
    Operation(InputOf(d.answer.op), d.call, KvOutput(d.answer.value), d.ret)
  }

  function AnsweredAll(done: seq<Completed>): (r: seq<KvOp>)
    ensures |r| == |done| && forall i :: 0 <= i < |r| ==> r[i] == Answered(done[i])
  {
    seq(|done|, i requires 0 <= i < |done| => Answered(done[i]))
  }

  /** Entry number `f` is a write whose clerk still waits. */
  ghost predicate Pending(sys: System, f: nat) {
    FirstWrite(sys.committed, f) && sys.committed[f - 1].request > ClerkOf(sys, sys.committed[f - 1].client).last
  }

  ghost function PendingUpTo(sys: System, k: nat): (r: seq<nat>)
    ensures forall f :: f in r <==> 1 <= f <= k && Pending(sys, f)
    ensures forall i, j :: 0 <= i < j < |r| ==> r[i] != r[j]
  {
    if k == 0 then [] else PendingUpTo(sys, k - 1) + if Pending(sys, k) then [k] else []
  }

  function CallOf(s: Service, c: int): nat {
    if c in s.calls then s.calls[c] else 0
  }

  /** A write that is committed but not answered may return at any time from now on. */
  function Unanswered(s: Service, f: nat): KvOp
    requires 1 <= f <= |s.sys.committed|
  {
    var op := s.sys.committed[f - 1];
    Operation(InputOf(op), CallOf(s, op.client), KvOutput(""), |s.lens|)
  }

  ghost function UnansweredAll(s: Service, fs: seq<nat>): (r: seq<KvOp>)
    requires forall i :: 0 <= i < |fs| ==> 1 <= fs[i] <= |s.sys.committed|
    ensures |r| == |fs| && forall i :: 0 <= i < |r| ==> r[i] == Unanswered(s, fs[i])
  {
    seq(|fs|, i requires 0 <= i < |fs| => Unanswered(s, fs[i]))
  }

  ghost function PendingAll(s: Service): (fs: seq<nat>)
    ensures forall i :: 0 <= i < |fs| ==> 1 <= fs[i] <= |s.sys.committed| && Pending(s.sys, fs[i])
    ensures forall f :: 1 <= f <= |s.sys.committed| && Pending(s.sys, f) ==> f in fs
    ensures forall i, j :: 0 <= i < j < |fs| ==> fs[i] != fs[j]
  {
    var fs := PendingUpTo(s.sys, |s.sys.committed|);
    assert forall i :: 0 <= i < |fs| ==> fs[i] in fs;
    fs
  }

  /** The answered requests, and the writes that are committed and not answered. */
  ghost function HistoryOf(s: Service): seq<KvOp> {
    AnsweredAll(s.done) + UnansweredAll(s, PendingAll(s))
  }

  // ----- the invariant

  /** The answer is the value after a prefix that holds the request. */
  ghost predicate AnswerOk(sys: System, a: Answer) {
    && a.op in sys.submitted && a.prefix <= |sys.committed|
    && Occurs(sys.committed[..a.prefix], a.op.client, a.op.request)
    && (a.op.name == "Get" ==> a.value == Lookup(Data(sys.committed, a.prefix), a.op.key))
  }

  /** The request was not committed yet when it was made. */
  ghost predicate CalledAt(sys: System, lens: seq<nat>, op: Op, call: nat) {
    && call < |lens| && lens[call] <= |sys.committed|
    && !Occurs(sys.committed[..lens[call]], op.client, op.request)
  }

  ghost predicate DoneOk(sys: System, lens: seq<nat>, d: Completed) {
    && AnswerOk(sys, d.answer) && CalledAt(sys, lens, d.answer.op, d.call)
    && d.call < d.ret < |lens| && d.answer.prefix <= lens[d.ret]
    && d.answer.op.request <= ClerkOf(sys, d.answer.op.client).last
  }

  ghost predicate WaitingOk(s: Service, c: int) {
    ClerkOf(s.sys, c).current.Some? ==>
      c in s.calls && CalledAt(s.sys, s.lens, ClerkOf(s.sys, c).current.value, s.calls[c])
  }

  ghost predicate LensOk(s: Service) {
    && (forall i, j :: 0 <= i <= j < |s.lens| ==> s.lens[i] <= s.lens[j])
    && (forall i :: 0 <= i < |s.lens| ==> s.lens[i] <= |s.sys.committed|)
  }

  ghost predicate OnceAnswered(done: seq<Completed>) {
    forall i, j :: 0 <= i < j < |done| ==> !SameId(done[i].answer.op, done[j].answer.op)
  }

  ghost predicate HasAnswer(done: seq<Completed>, c: int, r: int) {
    exists i :: 0 <= i < |done| && done[i].answer.op.client == c && done[i].answer.op.request == r
  }

  ghost predicate AllAnswered(s: Service, c: int) {
    forall r :: 1 <= r <= ClerkOf(s.sys, c).last ==> HasAnswer(s.done, c, r)
  }

  ghost predicate KnownOnly(sys: System) {
    && (forall op :: op in sys.submitted ==> Known(op))
    && (forall c :: ClerkOf(sys, c).current.Some? ==> Known(ClerkOf(sys, c).current.value))
  }

  ghost predicate ServiceInv(s: Service) {
    && SystemInv(s.sys) && KnownOnly(s.sys) && LensOk(s)
    && (forall v :: 0 <= v < |s.servers| ==> Delivery.ApplierInv(LogOf(s.sys), s.servers[v]))
    && (forall a :: a in s.answers ==> AnswerOk(s.sys, a))
    && (forall c :: WaitingOk(s, c) && AllAnswered(s, c))
    && (forall i :: 0 <= i < |s.done| ==> DoneOk(s.sys, s.lens, s.done[i]))
    && OnceAnswered(s.done)
  }

  // ----- every move keeps it

  /** Nothing committed, submitted or acknowledged is lost. */
  ghost predicate Grows(sys: System, sys': System) {
    && sys.committed <= sys'.committed && sys.submitted <= sys'.submitted
    && forall c :: ClerkOf(sys, c).last <= ClerkOf(sys', c).last
  }

  lemma AnswerKept(sys: System, sys': System, a: Answer)
    requires AnswerOk(sys, a) && Grows(sys, sys')
    ensures AnswerOk(sys', a)
  {
    assert sys'.committed[..a.prefix] == sys.committed[..a.prefix];
  }

  lemma CalledKept(sys: System, sys': System, lens: seq<nat>, x: nat, op: Op, call: nat)
    requires CalledAt(sys, lens, op, call) && Grows(sys, sys')
    ensures CalledAt(sys', lens + [x], op, call)
  {
    assert sys'.committed[..lens[call]] == sys.committed[..lens[call]];
  }

  lemma DoneKept(sys: System, sys': System, lens: seq<nat>, x: nat, d: Completed)
    requires DoneOk(sys, lens, d) && Grows(sys, sys')
    ensures DoneOk(sys', lens + [x], d)
  {
    hide AnswerOk, CalledAt;
    AnswerKept(sys, sys', d.answer);
    CalledKept(sys, sys', lens, x, d.answer.op, d.call);
    assert ClerkOf(sys, d.answer.op.client).last <= ClerkOf(sys', d.answer.op.client).last;
  }

  /** A clerk that waits for nothing has nothing uncommitted on its way. */
  lemma NotCommitted(sys: System, c: int)
    requires SystemInv(sys) && ClerkOf(sys, c).current.None?
    ensures !Occurs(sys.committed, c, ClerkOf(sys, c).last + 1)
  {
    forall k | 0 <= k < |sys.committed| && sys.committed[k].client == c
      ensures sys.committed[k].request <= ClerkOf(sys, c).last
    {
      assert SubmittedOk(sys, sys.committed[k]);
    }
  }

  lemma SysGrows(sys: System, step: Step)
    requires SystemInv(sys)
    ensures Grows(sys, KvClerks.Next(sys, step))
  {
    if step.Ack? {
      assert ClerkOk(sys, step.client);
    }
  }

  /** The parts of the state that no clerk's return changes. */
  ghost predicate Moves(s: Service, s': Service) {
    && Grows(s.sys, s'.sys) && s'.lens == s.lens + [|s.sys.committed|] && s'.done == s.done
    && forall c :: ClerkOf(s'.sys, c).last == ClerkOf(s.sys, c).last
  }

  lemma LensKept(s: Service, s': Service)
    requires LensOk(s) && s.sys.committed <= s'.sys.committed && s'.lens == s.lens + [|s.sys.committed|]
    ensures LensOk(s')
  {
  }

  lemma DoneMoves(s: Service, s': Service)
    requires ServiceInv(s) && Moves(s, s')
    ensures forall i :: 0 <= i < |s'.done| ==> DoneOk(s'.sys, s'.lens, s'.done[i])
    ensures OnceAnswered(s'.done) && LensOk(s') && forall c :: AllAnswered(s', c)
  {
    forall i | 0 <= i < |s'.done| ensures DoneOk(s'.sys, s'.lens, s'.done[i]) {
      DoneKept(s.sys, s'.sys, s.lens, |s.sys.committed|, s.done[i]);
    }
    forall c ensures AllAnswered(s', c) {
      assert AllAnswered(s, c) && ClerkOf(s'.sys, c).last == ClerkOf(s.sys, c).last;
    }
    LensKept(s, s');
  }

  lemma AnswersKept(s: Service, s': Service)
    requires ServiceInv(s) && Grows(s.sys, s'.sys)
    ensures forall a :: a in s.answers ==> AnswerOk(s'.sys, a)
  {
    forall a | a in s.answers ensures AnswerOk(s'.sys, a) {
      AnswerKept(s.sys, s'.sys, a);
    }
  }

  lemma ServersKept(s: Service, s': Service)
    requires ServiceInv(s) && Grows(s.sys, s'.sys)
    ensures forall v :: 0 <= v < |s.servers| ==> Delivery.ApplierInv(LogOf(s'.sys), s.servers[v])
  {
    forall v | 0 <= v < |s.servers| ensures Delivery.ApplierInv(LogOf(s'.sys), s.servers[v]) {
      Delivery.LogGrows(LogOf(s.sys), LogOf(s'.sys), s.servers[v]);
    }
  }

  lemma WaitingKept(s: Service, s': Service, c: int)
    requires WaitingOk(s, c) && Moves(s, s') && CallOf(s', c) == CallOf(s, c) && (c in s.calls ==> c in s'.calls)
    requires ClerkOf(s'.sys, c).current == ClerkOf(s.sys, c).current
    ensures WaitingOk(s', c)
  {
    if ClerkOf(s.sys, c).current.Some? {
      CalledKept(s.sys, s'.sys, s.lens, |s.sys.committed|, ClerkOf(s.sys, c).current.value, s.calls[c]);
    }
  }

  lemma IssuingKeeps(s: Service, c: int, key: string, value: string, name: string)
    requires ServiceInv(s) && ClerkOf(s.sys, c).current.None? && Known(Op(key, value, name, c, 0))
    ensures ServiceInv(Next(s, Issuing(c, key, value, name)))
  {
    var step, s' := Issue(c, key, value, name), Next(s, Issuing(c, key, value, name));
    KvClerks.NextKeeps(s.sys, step);
    SysGrows(s.sys, step);
    NotCommitted(s.sys, c);
    DoneMoves(s, s');
    AnswersKept(s, s');
    ServersKept(s, s');
    assert s.sys.committed[..|s.sys.committed|] == s.sys.committed;
    forall d ensures WaitingOk(s', d) {
      assert WaitingOk(s, d);
      if d != c {
        WaitingKept(s, s', d);
      }
    }
  }

  /** Submitting and committing: no clerk moves. */
  lemma SystemKeeps(s: Service, step: Step)
    requires ServiceInv(s) && (step.Submit? || step.Commit?)
    ensures ServiceInv(s.(sys := KvClerks.Next(s.sys, step), lens := s.lens + [|s.sys.committed|]))
  {
    var s' := s.(sys := KvClerks.Next(s.sys, step), lens := s.lens + [|s.sys.committed|]);
    KvClerks.NextKeeps(s.sys, step);
    SysGrows(s.sys, step);
    assert s'.sys.clerks == s.sys.clerks;
    assert KnownOnly(s'.sys) by { assert KnownOnly(s.sys); }
    hide SystemInv, KvClerks.Next, KnownOnly;
    DoneMoves(s, s');
    AnswersKept(s, s');
    ServersKept(s, s');
    forall c ensures WaitingOk(s', c) {
      assert WaitingOk(s, c);
      WaitingKept(s, s', c);
    }
  }

  lemma StreamReads(s: Service, v: nat, op: Op)
    requires ServiceInv(s) && v < |s.servers| && op in s.sys.submitted && Received(s.servers[v].stream, op)
    ensures var stream := s.servers[v].stream;
      0 <= Delivery.Top(stream) && AnswerOk(s.sys, Answer(op, ReadValue(stream, op), Delivery.Top(stream)))
  {
    var stream, log, committed := s.servers[v].stream, LogOf(s.sys), s.sys.committed;
    assert Delivery.ApplierInv(log, s.servers[v]) && ClerkLog(committed);
    hide ServiceInv;
    Delivery.OnePass(log, stream);
    var top := Delivery.Top(stream);
    var k :| 0 <= k < |stream| && SameId(stream[k].op, op);
    assert Delivery.DeliveryOk(log, stream, k);
    assert stream[k].index in Delivery.Indices(stream);
    Delivery.Contiguous(log, stream, stream[k].index);
    assert Delivery.UpTo(log, top) == committed[..top];
    assert committed[..top][stream[k].index - 1] == stream[k].op;
    ClerkLogPrefix(committed, top);
    FilterRefines(committed[..top]);
  }

  /** Servers and answers: clerks and log stay. */
  lemma StillKeeps(s: Service, s': Service)
    requires ServiceInv(s)
    requires s' == s.(servers := s'.servers, answers := s'.answers, lens := s.lens + [|s.sys.committed|])
    requires forall v :: 0 <= v < |s'.servers| ==> Delivery.ApplierInv(LogOf(s.sys), s'.servers[v])
    requires forall a :: a in s'.answers ==> AnswerOk(s.sys, a)
    ensures ServiceInv(s')
  {
    DoneMoves(s, s');
    forall c ensures WaitingOk(s', c) {
      assert WaitingOk(s, c);
      WaitingKept(s, s', c);
    }
  }

  lemma ReturningDone(s: Service, a: Answer)
    requires ServiceInv(s) && ClerkOf(s.sys, a.op.client).current == Some(a.op)
    requires a in s.answers && a.op.client in s.calls
    ensures var s', d := Next(s, Returning(a)), Completed(a, s.calls[a.op.client], |s.lens|);
      && ClerkOf(s'.sys, a.op.client) == ClerkState(a.op.request, None)
      && a.op.request == ClerkOf(s.sys, a.op.client).last + 1
      && s'.sys == KvClerks.Next(s.sys, Ack(a.op.client)) && s'.done == s.done + [d] && DoneOk(s'.sys, s'.lens, d)
  {
    var c, s' := a.op.client, Next(s, Returning(a));
    assert ClerkOk(s.sys, c) && AnswerOk(s.sys, a) && WaitingOk(s, c);
    assert s.sys.committed == s.sys.committed[..a.prefix] + s.sys.committed[a.prefix..];
    OccursLater(s.sys.committed[..a.prefix], s.sys.committed[a.prefix..], c, a.op.request);
    SysGrows(s.sys, Ack(c));
    AnswerKept(s.sys, s'.sys, a);
    CalledKept(s.sys, s'.sys, s.lens, |s.sys.committed|, a.op, s.calls[c]);
  }

  lemma KnownAfterReturn(sys: System, c: int)
    requires KnownOnly(sys)
    ensures KnownOnly(KvClerks.Next(sys, Ack(c)))
  {
    var sys' := KvClerks.Next(sys, Ack(c));
    forall d ensures ClerkOf(sys', d) == ClerkOf(sys, d) || ClerkOf(sys', d).current.None? {
    }
  }

  lemma ReturningKeeps(s: Service, a: Answer)
    requires ServiceInv(s) && ClerkOf(s.sys, a.op.client).current == Some(a.op)
    requires a in s.answers && a.op.client in s.calls
    ensures ServiceInv(Next(s, Returning(a)))
  {
    var c, s' := a.op.client, Next(s, Returning(a));
    ReturningDone(s, a);
    KvClerks.NextKeeps(s.sys, Ack(c));
    SysGrows(s.sys, Ack(c));
    KnownAfterReturn(s.sys, c);
    AnswersKept(s, s');
    ServersKept(s, s');
    LensKept(s, s');
    hide SystemInv, KnownOnly, AnswerOk, CalledAt, Delivery.ApplierInv, LensOk;
    forall e ensures WaitingOk(s', e) && AllAnswered(s', e) {
      assert WaitingOk(s, e) && AllAnswered(s, e);
      ReturningClerk(s, s', a, e);
    }
    forall i | 0 <= i < |s'.done| ensures DoneOk(s'.sys, s'.lens, s'.done[i]) {
      if i < |s.done| {
        DoneKept(s.sys, s'.sys, s.lens, |s.sys.committed|, s.done[i]);
      }
    }
    forall i | 0 <= i < |s.done| ensures !SameId(s.done[i].answer.op, a.op) {
      assert DoneOk(s.sys, s.lens, s.done[i]);
    }
  }

  lemma ReturningClerk(s: Service, s': Service, a: Answer, e: int)
    requires WaitingOk(s, e) && AllAnswered(s, e) && Grows(s.sys, s'.sys) && s'.calls == s.calls
    requires s'.lens == s.lens + [|s.sys.committed|] && |s'.done| == |s.done| + 1 && s'.done[..|s.done|] == s.done
    requires s'.done[|s.done|].answer == a
    requires e == a.op.client ==> a.op.request == ClerkOf(s.sys, e).last + 1
    requires ClerkOf(s'.sys, e) == if e == a.op.client then ClerkState(a.op.request, None) else ClerkOf(s.sys, e)
    ensures WaitingOk(s', e) && AllAnswered(s', e)
  {
    if ClerkOf(s'.sys, e).current.Some? {
      CalledKept(s.sys, s'.sys, s.lens, |s.sys.committed|, ClerkOf(s.sys, e).current.value, s.calls[e]);
    }
    forall r | 1 <= r <= ClerkOf(s'.sys, e).last ensures HasAnswer(s'.done, e, r) {
      if r <= ClerkOf(s.sys, e).last {
        assert HasAnswer(s.done, e, r);
        var i :| 0 <= i < |s.done| && s.done[i].answer.op.client == e && s.done[i].answer.op.request == r;
        assert s'.done[i] == s.done[i];
      } else {
        assert s'.done[|s.done|].answer.op.request == r;
      }
    }
  }

  lemma NextKeeps(s: Service, move: Move)
    requires ServiceInv(s)
    ensures ServiceInv(Next(s, move))
  {
    hide ServiceInv, ApplyAll, Delivery.Next;
    var s' := Next(s, move);
    match move
    case Issuing(c, key, value, name) =>
      if ClerkOf(s.sys, c).current.None? && Known(Op(key, value, name, c, 0)) {
        IssuingKeeps(s, c, key, value, name);
      } else {
        NothingMoves(s);
      }
    case Submitting(c) => SystemKeeps(s, Submit(c));
    case Committing(op) => SystemKeeps(s, Step.Commit(op));
    case Delivering(v, e) =>
      if v < |s.servers| {
        ServerMoves(s, v, Delivery.Next(LogOf(s.sys), s.servers[v], e)) by { DeliveryKeeps(s, v, e); }
      } else {
        NothingMoves(s);
      }
    case Restarting(v) =>
      if v < |s.servers| {
        ServerMoves(s, v, Delivery.Applier(0, [], []));
      } else {
        NothingMoves(s);
      }
    case Answering(v, op) => AnsweringKeeps(s, v, op);
    case Returning(a) =>
      if ClerkOf(s.sys, a.op.client).current == Some(a.op) && a in s.answers && a.op.client in s.calls {
        ReturningKeeps(s, a);
      } else {
        NothingMoves(s);
      }
  }

  lemma NothingMoves(s: Service)
    requires ServiceInv(s)
    ensures ServiceInv(s.(lens := s.lens + [|s.sys.committed|]))
  {
    StillKeeps(s, s.(lens := s.lens + [|s.sys.committed|]));
  }

  lemma DeliveryKeeps(s: Service, v: nat, e: Delivery.Event)
    requires ServiceInv(s) && v < |s.servers|
    ensures Delivery.ApplierInv(LogOf(s.sys), Delivery.Next(LogOf(s.sys), s.servers[v], e))
  {
    Delivery.NextKeeps(LogOf(s.sys), s.servers[v], e);
  }

  lemma ServerMoves(s: Service, v: nat, a: Delivery.Applier)
    requires ServiceInv(s) && v < |s.servers| && Delivery.ApplierInv(LogOf(s.sys), a)
    ensures ServiceInv(s.(servers := s.servers[v := a], lens := s.lens + [|s.sys.committed|]))
  {
    StillKeeps(s, s.(servers := s.servers[v := a], lens := s.lens + [|s.sys.committed|]));
  }

  lemma AnsweringKeeps(s: Service, v: nat, op: Op)
    requires ServiceInv(s)
    ensures ServiceInv(Next(s, Answering(v, op)))
  {
    hide ApplyAll, ReadValue;
    if v < |s.servers| && op in s.sys.submitted && Received(s.servers[v].stream, op) {
      StreamReads(s, v, op);
    }
    StillKeeps(s, Next(s, Answering(v, op)));
  }

  lemma {:induction false} RunInv(n: nat, moves: seq<Move>)
    ensures ServiceInv(Run(n, moves))
  {
    if moves != [] {
      RunInv(n, moves[..|moves| - 1]);
      hide ServiceInv, Next;
      NextKeeps(Run(n, moves[..|moves| - 1]), moves[|moves| - 1]);
    }
  }
}
