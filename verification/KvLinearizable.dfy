/**
 Every history of the key/value service is linearizable for the checker's key/value
 model: writes are ordered by their first occurrence in the committed log, gets by
 the prefix they have read (kvraft/client.go:42-98, kvraft/server.go:48-124,
 167-197, linearizability/models.go:15-50).
 */
module KvLinearizable {
  import opened Common
  import opened Histories
  import opened KvLocality
  import opened KvStore
  import opened KvClerks
  import opened KvOrder
  import opened KvService
  import CheckHistory
  import KvMeaning

  /** Where a request first occurs, counted from 1; 0 if it does not. */
  ghost function FirstPos(log: seq<Op>, c: int, r: int): nat {
    if log == [] then 0
    else
      var k := |log| - 1;
      if FirstPos(log[..k], c, r) > 0 then FirstPos(log[..k], c, r)
      else if log[k].client == c && log[k].request == r then k + 1
      else 0
  }

  lemma {:induction false} FirstPosExactly(log: seq<Op>, c: int, r: int)
    ensures Occurs(log, c, r) <==> FirstPos(log, c, r) > 0
    ensures var f := FirstPos(log, c, r);
      f > 0 ==> f <= |log| && log[f - 1].client == c && log[f - 1].request == r && !Occurs(log[..f - 1], c, r)
  {
    if log != [] {
      var k := |log| - 1;
      FirstPosExactly(log[..k], c, r);
      assert log == log[..k] + [log[k]];
      OccursOneMore(log[..k], log[k], c, r);
      var f := FirstPos(log[..k], c, r);
      if f > 0 {
        assert log[..k][..f - 1] == log[..f - 1];
      }
    }
  }

  lemma LongerPrefix(log: seq<Op>, k: nat, m: nat, c: int, r: int)
    requires k <= m <= |log| && Occurs(log[..k], c, r)
    ensures Occurs(log[..m], c, r)
  {
    OccursLater(log[..k], log[k..m], c, r);
    assert log[..m] == log[..k] + log[k..m];
  }

  /** A prefix holds the request exactly if it reaches the first occurrence. */
  lemma FirstPosIn(log: seq<Op>, c: int, r: int, k: nat)
    requires k <= |log|
    ensures Occurs(log[..k], c, r) <==> 0 < FirstPos(log, c, r) <= k
  {
    hide Occurs, FirstPos;
    FirstPosExactly(log, c, r);
    var f := FirstPos(log, c, r);
    if 0 < f <= k {
      EarlierOccurs(log, f - 1, k);
    }
    if Occurs(log[..k], c, r) {
      LongerPrefix(log, k, |log|, c, r);
      assert log[..|log|] == log;
      if f > k {
        LongerPrefix(log, k, f - 1, c, r);
      }
    }
  }

  ghost function PlaceOf(sys: System, a: Answer): Place {
    if a.op.name == "Get" then AfterRead(a.prefix)
    else AtWrite(FirstPos(sys.committed, a.op.client, a.op.request))
  }

  ghost function Places(s: Service): (at: seq<Place>)
    ensures |at| == |s.done| + |PendingAll(s)|
    ensures forall i :: 0 <= i < |s.done| ==> at[i] == PlaceOf(s.sys, s.done[i].answer)
    ensures forall i :: |s.done| <= i < |at| ==> at[i] == AtWrite(PendingAll(s)[i - |s.done|])
  {
    var fs := PendingAll(s);
    seq(|s.done|, i requires 0 <= i < |s.done| => PlaceOf(s.sys, s.done[i].answer))
    + seq(|fs|, i requires 0 <= i < |fs| => AtWrite(fs[i]))
  }

  /** The first occurrence of an answered write is that write. */
  lemma AnswerPlace(sys: System, a: Answer)
    requires SystemInv(sys) && KnownOnly(sys) && AnswerOk(sys, a)
    ensures var f := FirstPos(sys.committed, a.op.client, a.op.request);
      && 1 <= f <= a.prefix && sys.committed[f - 1] == a.op && (a.op.name != "Get" ==> FirstWrite(sys.committed, f))
  {
    FirstPosIn(sys.committed, a.op.client, a.op.request, a.prefix);
    FirstPosExactly(sys.committed, a.op.client, a.op.request);
    var f := FirstPos(sys.committed, a.op.client, a.op.request);
    assert sys.committed[f - 1] in sys.submitted && SameId(sys.committed[f - 1], a.op);
  }

  /** An operation comes after everything committed when it was called, and before
      everything committed after it returned. */
  lemma DoneRank(sys: System, lens: seq<nat>, d: Completed)
    requires SystemInv(sys) && KnownOnly(sys) && DoneOk(sys, lens, d)
    ensures 2 * lens[d.call] + 2 <= Rank(PlaceOf(sys, d.answer)) <= 2 * lens[d.ret] + 1
  {
    AnswerPlace(sys, d.answer);
    FirstPosIn(sys.committed, d.answer.op.client, d.answer.op.request, lens[d.call]);
  }

  lemma DonePlaced(sys: System, lens: seq<nat>, d: Completed)
    requires SystemInv(sys) && KnownOnly(sys) && DoneOk(sys, lens, d)
    ensures PlaceOk(sys.committed, Answered(d), PlaceOf(sys, d.answer))
  {
    hide SystemInv, KnownOnly;
    AnswerPlace(sys, d.answer);
    hide FirstPos, Data, Occurs;
  }

  lemma PendingWaits(s: Service, f: nat)
    requires ServiceInv(s) && Pending(s.sys, f)
    ensures var op := s.sys.committed[f - 1];
      ClerkOf(s.sys, op.client).current == Some(op) && WaitingOk(s, op.client) && op.client in s.calls
      && CalledAt(s.sys, s.lens, op, CallOf(s, op.client))
  {
    var op := s.sys.committed[f - 1];
    assert op in s.sys.submitted;
    assert SubmittedOk(s.sys, op) && WaitingOk(s, op.client);
  }

  lemma PendingRank(s: Service, f: nat)
    requires ServiceInv(s) && Pending(s.sys, f)
    ensures CallOf(s, s.sys.committed[f - 1].client) < |s.lens|
    ensures 2 * s.lens[CallOf(s, s.sys.committed[f - 1].client)] + 2 <= 2 * f
  {
    PendingWaits(s, f);
    var op := s.sys.committed[f - 1];
    var k := s.lens[CallOf(s, op.client)];
    hide ServiceInv, Occurs;
    if f <= k {
      EarlierOccurs(s.sys.committed, f - 1, k);
    }
  }

  // ----- the parts of the schedule

  lemma HistoryAt(s: Service, i: nat)
    requires i < |HistoryOf(s)|
    ensures |Places(s)| == |HistoryOf(s)| == |s.done| + |PendingAll(s)|
    ensures i < |s.done| ==> HistoryOf(s)[i] == Answered(s.done[i]) && Places(s)[i] == PlaceOf(s.sys, s.done[i].answer)
    ensures i >= |s.done| ==> var f := PendingAll(s)[i - |s.done|];
      Pending(s.sys, f) && HistoryOf(s)[i] == Unanswered(s, f) && Places(s)[i] == AtWrite(f)
  {
  }

  lemma DoneFacts(s: Service, i: nat)
    requires ServiceInv(s) && i < |s.done|
    ensures SystemInv(s.sys) && KnownOnly(s.sys) && DoneOk(s.sys, s.lens, s.done[i])
  {
  }

  lemma AllPlaced(s: Service, i: nat)
    requires ServiceInv(s) && i < |HistoryOf(s)|
    ensures |Places(s)| == |HistoryOf(s)| && PlaceOk(s.sys.committed, HistoryOf(s)[i], Places(s)[i])
  {
    hide ServiceInv, HistoryOf, Places, SystemInv, KnownOnly, DoneOk, PlaceOf, FirstWrite;
    HistoryAt(s, i);
    if i < |s.done| {
      DoneFacts(s, i);
      DonePlaced(s.sys, s.lens, s.done[i]);
    }
  }

  /** When an operation of the history was called. */
  lemma CallRank(s: Service, i: nat)
    requires ServiceInv(s) && i < |HistoryOf(s)|
    ensures var call := HistoryOf(s)[i].call;
      |Places(s)| == |HistoryOf(s)| && 0 <= call < |s.lens| && 2 * s.lens[call] + 2 <= Rank(Places(s)[i])
  {
    hide ServiceInv, HistoryOf, Places, SystemInv, KnownOnly, PlaceOf, Pending, AnswerOk;
    HistoryAt(s, i);
    if i < |s.done| {
      DoneFacts(s, i);
      DoneRank(s.sys, s.lens, s.done[i]);
    } else {
      PendingRank(s, PendingAll(s)[i - |s.done|]);
    }
  }

  lemma LensOrdered(s: Service, i: nat, j: nat)
    requires ServiceInv(s) && i <= j < |s.lens|
    ensures s.lens[i] <= s.lens[j]
  {
  }

  lemma RealTime(s: Service, i: nat, j: nat)
    requires ServiceInv(s) && i < |HistoryOf(s)| && j < |HistoryOf(s)| && Precedes(HistoryOf(s)[i], HistoryOf(s)[j])
    ensures |Places(s)| == |HistoryOf(s)| && Rank(Places(s)[i]) < Rank(Places(s)[j])
  {
    hide ServiceInv, HistoryOf, Places, SystemInv, KnownOnly, PlaceOf, Pending, AnswerOk, Rank;
    HistoryAt(s, i);
    CallRank(s, j);
    if i < |s.done| {
      DoneFacts(s, i);
      DoneRank(s.sys, s.lens, s.done[i]);
      LensOrdered(s, s.done[i].ret, HistoryOf(s)[j].call);
    }
  }

  /** The entry at the place of an answered write is that write. */
  lemma SamePlace(sys: System, a: Answer, f: nat)
    requires SystemInv(sys) && KnownOnly(sys) && AnswerOk(sys, a) && PlaceOf(sys, a) == AtWrite(f)
    ensures 1 <= f <= |sys.committed| && sys.committed[f - 1] == a.op
  {
    hide SystemInv, KnownOnly, AnswerOk, FirstPos;
    AnswerPlace(sys, a);
  }

  lemma AnsweredApart(s: Service, i: nat, j: nat)
    requires ServiceInv(s) && i < j < |s.done|
    ensures !SameId(s.done[i].answer.op, s.done[j].answer.op)
  {
  }

  lemma PlacedOnce(s: Service, i: nat, j: nat)
    requires ServiceInv(s) && i < j < |HistoryOf(s)| && Places(s)[i].AtWrite?
    ensures Places(s)[i] != Places(s)[j]
  {
    hide ServiceInv, HistoryOf, Places, SystemInv, KnownOnly, PlaceOf, AnswerOk, CalledAt, FirstWrite;
    HistoryAt(s, i);
    HistoryAt(s, j);
    if i < |s.done| {
      DoneFacts(s, i);
      SamePlace(s.sys, s.done[i].answer, Places(s)[i].f);
    }
    if j < |s.done| {
      AnsweredApart(s, i, j);
      DoneFacts(s, j);
      if Places(s)[j].AtWrite? {
        SamePlace(s.sys, s.done[j].answer, Places(s)[j].f);
      }
    }
  }

  lemma WritesPlaced(s: Service, f: nat)
    requires ServiceInv(s) && FirstWrite(s.sys.committed, f)
    ensures WritePlaced(Places(s), f)
  {
    var op, at := s.sys.committed[f - 1], Places(s);
    if Pending(s.sys, f) {
      var k :| 0 <= k < |PendingAll(s)| && PendingAll(s)[k] == f;
      assert at[|s.done| + k] == AtWrite(f);
    } else {
      assert AllAnswered(s, op.client) && op in s.sys.submitted && SubmittedOk(s.sys, op);
      assert HasAnswer(s.done, op.client, op.request);
      var i :| 0 <= i < |s.done| &&
               s.done[i].answer.op.client == op.client && s.done[i].answer.op.request == op.request;
      AnsweredWrite(s, f, i);
      assert at[i] == AtWrite(f);
    }
  }

  lemma AnsweredWrite(s: Service, f: nat, i: nat)
    requires ServiceInv(s) && FirstWrite(s.sys.committed, f) && i < |s.done|
    requires SameId(s.done[i].answer.op, s.sys.committed[f - 1])
    ensures PlaceOf(s.sys, s.done[i].answer) == AtWrite(f)
  {
    var a, log := s.done[i].answer, s.sys.committed;
    assert DoneOk(s.sys, s.lens, s.done[i]) && SystemInv(s.sys) && KnownOnly(s.sys);
    hide ServiceInv;
    AnswerPlace(s.sys, a);
    var g := FirstPos(log, a.op.client, a.op.request);
    FirstPosIn(log, a.op.client, a.op.request, f);
    FirstPosIn(log, a.op.client, a.op.request, f - 1);
    assert log[..f][f - 1] == log[f - 1];
    assert g == f;
  }

  lemma HasSchedule(s: Service)
    requires ServiceInv(s)
    ensures Schedule(s.sys.committed, HistoryOf(s), Places(s))
  {
    hide ServiceInv, PlaceOk, FirstWrite, WritePlaced;
    var h, at := HistoryOf(s), Places(s);
    forall i | 0 <= i < |h| ensures PlaceOk(s.sys.committed, h[i], at[i]) {
      AllPlaced(s, i);
    }
    forall i, j | 0 <= i < |h| && 0 <= j < |h| && Precedes(h[i], h[j]) ensures Rank(at[i]) < Rank(at[j]) {
      RealTime(s, i, j);
    }
    forall i, j | 0 <= i < |h| && 0 <= j < |h| && at[i].AtWrite? && at[i] == at[j] ensures i == j {
      if i < j {
        PlacedOnce(s, i, j);
      } else if j < i {
        PlacedOnce(s, j, i);
      }
    }
    forall f: nat | FirstWrite(s.sys.committed, f) ensures WritePlaced(at, f) {
      WritesPlaced(s, f);
    }
  }

  /** In every run of clerks, network, apply goroutines and restarts, the answered
      requests and the committed writes not answered yet form a linearizable history. */
  lemma ServiceLinearizable(n: nat, moves: seq<Move>)
    ensures Linearizable(StoreModel(), HistoryOf(KvService.Run(n, moves)))
  {
    KvService.RunInv(n, moves);
    hide KvService.Run, ServiceInv, Schedule, Linearizable, HistoryOf;
    var s := KvService.Run(n, moves);
    HasSchedule(s);
    ScheduleLinearizes(s.sys.committed, HistoryOf(s), Places(s));
  }

  // ----- the checker accepts these histories

  /** A move is a call or a return, not both. */
  ghost predicate TimesOk(s: Service) {
    && (forall c :: c in s.calls ==> s.calls[c] < |s.lens|)
    && (forall i :: 0 <= i < |s.done| ==> s.done[i].call < |s.lens| && s.done[i].ret < |s.lens|)
    && (forall i, c :: 0 <= i < |s.done| && c in s.calls ==> s.done[i].ret != s.calls[c])
    && (forall i, j :: 0 <= i < |s.done| && 0 <= j < |s.done| ==> s.done[i].ret != s.done[j].call)
  }

  lemma {:induction false} RunTimes(n: nat, moves: seq<Move>)
    ensures TimesOk(KvService.Run(n, moves))
  {
    if moves != [] {
      RunTimes(n, moves[..|moves| - 1]);
      TimesKept(KvService.Run(n, moves[..|moves| - 1]), moves[|moves| - 1]);
    }
  }

  lemma TimesKept(s: Service, move: Move)
    requires TimesOk(s)
    ensures TimesOk(KvService.Next(s, move))
  {
    hide KvClerks.Next, ReadValue, Received, ClerkOf;
  }

  lemma DoneInOrder(s: Service, i: nat)
    requires ServiceInv(s) && i < |s.done|
    ensures s.done[i].call < s.done[i].ret
  {
    assert DoneOk(s.sys, s.lens, s.done[i]);
  }

  /** Such a history meets what the checker asks of its input. */
  lemma ServiceCheckable(n: nat, moves: seq<Move>)
    ensures var h := HistoryOf(KvService.Run(n, moves)); Timed(h) && Typed(h)
  {
    KvService.RunInv(n, moves);
    RunTimes(n, moves);
    hide KvService.Run;
    var s := KvService.Run(n, moves);
    var h := HistoryOf(s);
    hide ServiceInv, SystemInv, CalledAt, WaitingOk, Pending;
    forall i | 0 <= i < |h| ensures h[i].call < h[i].ret && h[i].call < |s.lens| {
      CallRank(s, i);
      if i < |s.done| {
        DoneInOrder(s, i);
      }
    }
    forall i, j | 0 <= i < |h| && 0 <= j < |h| ensures h[i].ret != h[j].call {
      assert h[j].call < |s.lens|;
      if j >= |s.done| {
        PendingWaits(s, PendingAll(s)[j - |s.done|]);
      }
    }
  }

  /** So the answers of the service have an order, in time, in which every get returns
      the last put to its key and what was appended since. */
  lemma ServiceExplained(n: nat, moves: seq<Move>)
    ensures exists order :: KvMeaning.Explains(HistoryOf(KvService.Run(n, moves)), order)
  {
    hide KvService.Run, HistoryOf, Linearizable, KvMeaning.Explains;
    ServiceCheckable(n, moves);
    ServiceLinearizable(n, moves);
    KvMeaning.StoreLinearizable(HistoryOf(KvService.Run(n, moves)));
  }

  /** The checker, given the history of a run in which anything was answered or
      committed, answers true. */
  method CheckService(history: seq<KvOp>, ghost n: nat, ghost moves: seq<Move>) returns (ok: bool)
    requires history != [] && history == HistoryOf(KvService.Run(n, moves))
    ensures ok
  {
    hide KvService.Run, HistoryOf, Timed, Typed, Linearizable;
    ServiceCheckable(n, moves);
    ServiceLinearizable(n, moves);
    ok := CheckHistory.CheckOperations(history);
  }
}
