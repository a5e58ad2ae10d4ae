/**
 The key/value server: the apply loop and the wait for an operation to be applied
 (kvraft/server.go:26-107, 154-197).  Raft, timers and the network are parameters.
 */
module KvServer {
  import opened KvStore
  import opened KvDelivery

  datatype Notification = Notification(client: int, request: int)

  datatype ApplyMsg = ApplyMsg(valid: bool, index: int, op: Op)

  /** What the valid messages deliver: one delivery each, in order. */
  function Deliveries(msgs: seq<ApplyMsg>): seq<Delivery> {
    if msgs == [] then []
    else
      var k := |msgs| - 1;
      Deliveries(msgs[..k]) + if msgs[k].valid then [Delivery(msgs[k].index, msgs[k].op)] else []
  }

  /** The number of valid messages among the first `k`. */
  function ValidBefore(msgs: seq<ApplyMsg>, k: nat): nat
    requires k <= |msgs|
  {
    if k == 0 then 0 else ValidBefore(msgs, k - 1) + if msgs[k - 1].valid then 1 else 0
  }

  /** Each valid message is delivered, after those of the valid ones before it. */
  lemma {:induction false} DeliveredAt(msgs: seq<ApplyMsg>, k: nat)
    requires k < |msgs|
    ensures |Deliveries(msgs)| == ValidBefore(msgs, |msgs|) >= ValidBefore(msgs, k + 1)
    ensures msgs[k].valid ==> Deliveries(msgs)[ValidBefore(msgs, k)] == Delivery(msgs[k].index, msgs[k].op)
    decreases |msgs|
  {
    var n := |msgs| - 1;
    ValidPrefix(msgs, n, n);
    if n == 0 {
      assert msgs[..0] == [];
    } else {
      DeliveredAt(msgs[..n], if k < n then k else 0);
    }
    if k < n {
      ValidPrefix(msgs, n, k);
      ValidPrefix(msgs, n, k + 1);
    }
  }

  lemma {:induction false} ValidPrefix(msgs: seq<ApplyMsg>, n: nat, k: nat)
    requires k <= n <= |msgs|
    ensures ValidBefore(msgs[..n], k) == ValidBefore(msgs, k)
  {
    if k > 0 {
      ValidPrefix(msgs, n, k - 1);
    }
  }

  /** The operation named by `n` was delivered at `index`. */
  ghost predicate Notified(stream: seq<Delivery>, index: int, n: Notification) {
    exists k :: 0 <= k < |stream| && stream[k].index == index &&
      n == Notification(stream[k].op.client, stream[k].op.request)
  }

  /** What the first delivery at `index` notifies of, if there is one. */
  function FirstNotice(stream: seq<Delivery>, index: int): (r: seq<Notification>)
    ensures |r| <= 1
    ensures r == [] <==> forall k :: 0 <= k < |stream| ==> stream[k].index != index
  {
    if stream == [] then []
    else
      var k := |stream| - 1;
      var r := FirstNotice(stream[..k], index);
      if r == [] && stream[k].index == index then [Notification(stream[k].op.client, stream[k].op.request)] else r
  }

  lemma {:induction false} FirstNoticeAt(stream: seq<Delivery>, index: int, k: nat)
    requires k < |stream| && stream[k].index == index && forall j :: 0 <= j < k ==> stream[j].index != index
    ensures FirstNotice(stream, index) == [Notification(stream[k].op.client, stream[k].op.request)]
  {
    if k < |stream| - 1 {
      FirstNoticeAt(stream[..|stream| - 1], index, k);
    }
  }

  lemma NotifiedLater(stream: seq<Delivery>, more: seq<Delivery>, index: int, n: Notification)
    requires Notified(stream, index, n)
    ensures Notified(stream + more, index, n)
  {
    var k :| 0 <= k < |stream| && stream[k].index == index &&
             n == Notification(stream[k].op.client, stream[k].op.request);
    assert (stream + more)[k] == stream[k];
  }

  lemma NotifiedNow(stream: seq<Delivery>, index: int, op: Op)
    ensures Notified(stream + [Delivery(index, op)], index, Notification(op.client, op.request))
  {
    assert (stream + [Delivery(index, op)])[|stream|] == Delivery(index, op);
  }

  /** A channel's queue after the deliveries: what was in it, else the first notice. */
  function Told(queue: seq<Notification>, stream: seq<Delivery>, index: int): seq<Notification> {
    if queue != [] then queue else FirstNotice(stream, index)
  }

  lemma NothingTold()
    ensures forall queue, index :: Told(queue, [], index) == queue
  {
  }

  /** The same after one delivery. */
  function ToldOne(queue: seq<Notification>, d: Delivery, index: int): seq<Notification> {
    if queue == [] && d.index == index then [Notification(d.op.client, d.op.request)] else queue
  }

  lemma ToldNext(queue: seq<Notification>, stream: seq<Delivery>, d: Delivery, index: int)
    ensures Told(queue, stream + [d], index) == ToldOne(Told(queue, stream, index), d, index)
  {
    assert (stream + [d])[..|stream|] == stream;
  }

  /** A channel with room for one notification about `index`. */
  class Channel {
    const index: int
    var queue: seq<Notification>

    constructor (index: int)
      ensures this.index == index && queue == []
    {
      this.index := index;
      queue := [];
    }
  }

  class KVServer {
    var db: map<string, string>
    var lastAppliedRequestId: map<int, int>
    var dispatcher: map<int, Channel>
    ghost var stream: seq<Delivery>      // applied so far
    ghost var channels: set<Channel>     // made so far

    ghost predicate ChannelOk(c: Channel)
      reads this, c
    {
      |c.queue| <= 1 && forall n :: n in c.queue ==> Notified(stream, c.index, n)
    }

    ghost predicate Valid()
      reads this, channels
    {
      && Store(db, lastAppliedRequestId) == ApplyAll(EMPTY, Ops(stream))
      && (forall i :: i in dispatcher ==> dispatcher[i] in channels && dispatcher[i].index == i)
      && forall c :: c in channels ==> ChannelOk(c)
    }

    constructor ()
      ensures Valid() && stream == [] && channels == {} && db == map[]
    {
      db, lastAppliedRequestId, dispatcher := map[], map[], map[];
      stream, channels := [], {};
    }

    /** Apply an operation unless the client's number says it was applied. */
    method Filter(op: Op)
      modifies this`db, this`lastAppliedRequestId
      ensures Store(db, lastAppliedRequestId) == ApplyOp(old(Store(db, lastAppliedRequestId)), op)
    {
      if op.client !in lastAppliedRequestId || lastAppliedRequestId[op.client] < op.request {
        if op.name == "Put" {
          db := db[op.key := op.value];
        } else if op.name == "Append" {
          var value := if op.key in db then db[op.key] else "";
          db := db[op.key := value + op.value];
        }
        lastAppliedRequestId := lastAppliedRequestId[op.client := op.request];
      }
    }

    /** One round of the apply loop.  It is blocked if the waiter of that index has
        left an earlier notification in the channel. */
    method Apply(index: int, op: Op) returns (blocked: bool)
      requires Valid()
      modifies this`db, this`lastAppliedRequestId, this`stream, channels
      ensures Valid() && stream == old(stream) + [Delivery(index, op)]
      ensures blocked == (index in dispatcher && old(dispatcher[index].queue) != [])
      ensures (index in dispatcher ==> dispatcher[index].queue != [])
      ensures index in dispatcher && !blocked ==> dispatcher[index].queue == [Notification(op.client, op.request)]
      ensures forall c :: c in channels && (index in dispatcher ==> c != dispatcher[index]) ==> c.queue == old(c.queue)
      ensures forall i :: i in dispatcher ==>
        dispatcher[i].queue == ToldOne(old(dispatcher[i].queue), Delivery(index, op), i)
    {
      hide ApplyOp, ApplyAll, Notified;
      ghost var was := stream;
      ApplyOneMore(EMPTY, Ops(was), op);
      Filter(op);
      stream := stream + [Delivery(index, op)];
      assert Ops(stream) == Ops(was) + [op];
      forall c, n | c in channels && n in c.queue ensures Notified(stream, c.index, n) {
        NotifiedLater(was, [Delivery(index, op)], c.index, n);
      }
      blocked := false;
      if index in dispatcher {
        var ch := dispatcher[index];
        if ch.queue == [] {
          NotifiedNow(was, index, op);
          ch.queue := [Notification(op.client, op.request)];
        } else {
          blocked := true;
        }
      }
    }

    /** The apply loop: it handles messages until they end or it is blocked. */
    method ApplyLoop(msgs: seq<ApplyMsg>) returns (done: nat, blocked: bool)
      requires Valid()
      modifies this`db, this`lastAppliedRequestId, this`stream, channels
      ensures Valid() && done <= |msgs| && stream == old(stream) + Deliveries(msgs[..done])
      ensures if blocked then exists i :: i in dispatcher && dispatcher[i].queue != [] else done == |msgs|
      ensures forall i :: i in dispatcher ==>
        dispatcher[i].queue == Told(old(dispatcher[i].queue), Deliveries(msgs[..done]), i)
    {
      hide Told, ToldOne, ChannelOk, ApplyAll;
      done, blocked := 0, false;
      NothingTold();
      while done < |msgs| && !blocked
        invariant Valid() && done <= |msgs| && stream == old(stream) + Deliveries(msgs[..done])
        invariant blocked ==> exists i :: i in dispatcher && dispatcher[i].queue != []
        invariant forall i :: i in dispatcher ==>
          dispatcher[i].queue == Told(old(dispatcher[i].queue), Deliveries(msgs[..done]), i)
      {
        var msg := msgs[done];
        assert msgs[..done + 1][..done] == msgs[..done];
        if msg.valid {
          ghost var d := Delivery(msg.index, msg.op);
          forall i | i in dispatcher
            ensures ToldOne(dispatcher[i].queue, d, i) ==
                    Told(old(dispatcher[i].queue), Deliveries(msgs[..done + 1]), i)
          {
            ToldNext(old(dispatcher[i].queue), Deliveries(msgs[..done]), d, i);
          }
          blocked := Apply(msg.index, msg.op);
        } else {
          assert Deliveries(msgs[..done + 1]) == Deliveries(msgs[..done]);
        }
        done := done + 1;
      }
    }

    /** `waitApplying`, up to the wait: Raft has put the operation at `index`. */
    method Enter(index: int) returns (ch: Channel)
      requires Valid()
      modifies this`dispatcher, this`channels
      ensures Valid() && ch in channels && ch.index == index && old(channels) <= channels
      ensures dispatcher == old(dispatcher)[index := ch] && (index in old(dispatcher) ==> dispatcher == old(dispatcher))
      ensures index !in old(dispatcher) ==> ch.queue == []
      ensures fresh(channels - old(channels))
    {
      if index !in dispatcher {
        var made := new Channel(index);
        dispatcher := dispatcher[index := made];
        channels := channels + {made};
      }
      ch := dispatcher[index];
    }

    /** `waitApplying`, from a notification or the timeout on.  The caller is told it
        asked the right leader exactly if the notification is of its operation, and then
        the operation was applied at its index. */
    method Leave(index: int, ch: Channel, op: Op, timedOut: bool) returns (wrongLeader: bool)
      requires Valid() && ch in channels && ch.index == index && (!timedOut ==> ch.queue != [])
      modifies this`dispatcher, ch
      ensures Valid()
      ensures wrongLeader <==> timedOut || old(ch.queue[0]) != Notification(op.client, op.request)
      ensures !wrongLeader ==> Notified(stream, index, Notification(op.client, op.request))
      ensures ch.queue == if timedOut then old(ch.queue) else old(ch.queue[1..])
      ensures dispatcher == if timedOut then old(dispatcher) else old(dispatcher) - {index}
    {
      if timedOut {
        return true;
      }
      var notify := ch.queue[0];
      assert Notified(stream, index, notify);
      ch.queue := ch.queue[1..];
      dispatcher := dispatcher - {index};
      wrongLeader := notify.client != op.client || notify.request != op.request;
    }

    /** A request from its wait to its answer, with nothing left over from an earlier
        wait at that index, while the messages come in.  The answer is that this is the
        right leader exactly if the operation first applied at its index is its own. */
    method Await(index: int, op: Op, msgs: seq<ApplyMsg>) returns (wrongLeader: bool, done: nat)
      requires Valid() && (index in dispatcher ==> dispatcher[index].queue == [])
      modifies this, channels
      ensures Valid() && done <= |msgs| && stream == old(stream) + Deliveries(msgs[..done])
      ensures wrongLeader <==>
        FirstNotice(Deliveries(msgs[..done]), index) != [Notification(op.client, op.request)]
    {
      hide FirstNotice, ApplyAll, Notified;
      var blocked;
      var ch := Enter(index);
      assert ch.queue == [];
      done, blocked := ApplyLoop(msgs);
      assert dispatcher[index] == ch && ch.queue == FirstNotice(Deliveries(msgs[..done]), index);
      assert ch.queue == [] || ch.queue == [ch.queue[0]];
      wrongLeader := Leave(index, ch, op, ch.queue == []);
    }

    /** In a row: the wait begins, the operation is applied, the wait ends. */
    method Answered(index: int, op: Op) returns (wrongLeader: bool)
      requires Valid() && (index in dispatcher ==> dispatcher[index].queue == [])
      modifies this, channels
      ensures Valid() && !wrongLeader && stream == old(stream) + [Delivery(index, op)]
      ensures dispatcher == old(dispatcher) - {index}
    {
      var ch := Enter(index);
      var blocked := Apply(index, op);
      wrongLeader := Leave(index, ch, op, false);
    }

    /** The answer of `Get` once its operation was applied: the value in the state
        of one pass over everything delivered. */
    method Lookup(key: string) returns (value: string, noKey: bool)
      requires Valid()
      ensures var now := ApplyAll(EMPTY, Ops(stream)).db;
        noKey == (key !in now) && value == if key in now then now[key] else ""
    {
      if key in db {
        return db[key], false;
      }
      return "", true;
    }
  }
}
