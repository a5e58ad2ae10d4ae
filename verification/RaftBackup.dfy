/**
 Fast back-up: how a leader finds where a follower's log departs from its own
 (raft/raft_log_replication.go:58-85, 205-221).  A trial is one append that the
 follower refuses because of its log; commands may be appended to the leader's
 log at any time.
 */
module RaftBackup {
  import opened RaftServer
  import opened RaftLogShape
  import opened RaftCommit

  /** The leader when it sends, the follower when it answers, the leader when it
      handles the answer. */
  datatype Trial = Trial(sender: Server, follower: Server, receiver: Server)

  /** The leader has done other work, which may have added entries to its log. */
  ghost predicate Grew(l: Server, l': Server, peer: nat) {
    && peer < |l.nextIndex| == |l'.nextIndex| && |l'.matchIndex| == |l'.nextIndex|
    && l'.nextIndex[peer] == l.nextIndex[peer] && l'.currentTerm == l.currentTerm && l.logs <= l'.logs
  }

  function Asked(t: Trial, peer: nat): AppendArgs
    requires CanBuild(t.sender, peer)
  {
    BuildAppend(t.sender, peer)
  }

  function Answered(t: Trial, peer: nat): AppendReply
    requires CanBuild(t.sender, peer)
  {
    HandleAppend(t.follower, Asked(t, peer)).1
  }

  /** The follower, not ahead in term, refuses. */
  ghost predicate Refused(t: Trial, peer: nat) {
    && CanBuild(t.sender, peer) && Grew(t.sender, t.receiver, peer)
    && t.follower.currentTerm <= t.sender.currentTerm && !Answered(t, peer).success
    && t.sender.logs[0].term == 0
  }

  function After(t: Trial, peer: nat): Server
    requires CanBuild(t.sender, peer) && CanHandleReply(t.receiver, peer, Asked(t, peer), Answered(t, peer))
  {
    HandleAppendReply(t.receiver, peer, Asked(t, peer), Answered(t, peer))
  }

  /** One refusal: the next trial is earlier, and if the follower's log was long
      enough, it meets an earlier term of the follower or one both logs have there. */
  lemma RefusalBacksUp(t: Trial, peer: nat, bound: int)
    requires Refused(t, peer) && LogOk(t.follower.logs, bound)
    ensures var logs, prev := t.follower.logs, t.sender.nextIndex[peer] - 1;
      var next, r := After(t, peer).nextIndex[peer], Answered(t, peer);
      && 1 <= next <= prev && next <= |logs|
      && if prev < |logs| then
           && r.conflictTerm == logs[prev].term >= 1 && logs[prev].term != t.sender.logs[prev].term
           && (logs[next - 1].term < r.conflictTerm || logs[next - 1].term == t.sender.logs[next - 1].term)
         else r.conflictTerm == -1 && next == |logs|
  {
    hide AfterTerm, RunStart, Merge, LogOk;
    var logs, prev, r := t.follower.logs, t.sender.nextIndex[peer] - 1, Answered(t, peer);
    LogOkFacts(logs, bound);
    if prev < |logs| {
      RunStartFirst(logs, prev, bound);
      AfterTermBounds(t.receiver.logs, r.conflictTerm, prev, r.conflictIndex);
      SortedUpTo(logs, bound, After(t, peer).nextIndex[peer] - 1, prev, r.conflictIndex);
    }
  }

  lemma LogOkFacts(logs: Log, bound: int)
    requires LogOk(logs, bound)
    ensures logs != [] && logs[0].term == 0 && forall i :: 1 <= i < |logs| ==> 1 <= logs[i].term
  {
  }

  /** Before its run starts, a log has smaller terms only. */
  lemma {:induction false} RunStartFirst(logs: Log, i: nat, bound: int)
    requires LogOk(logs, bound) && i < |logs|
    ensures var r := RunStart(logs, i); r == 0 || logs[r - 1].term < logs[i].term
  {
    if i > 0 && logs[i - 1].term == logs[i].term {
      RunStartFirst(logs, i - 1, bound);
    }
  }

  lemma SortedUpTo(logs: Log, bound: int, j: int, i: int, r: int)
    requires LogOk(logs, bound) && 0 <= j < i < |logs| && 1 <= r <= i
    requires logs[r].term == logs[i].term && logs[r - 1].term < logs[i].term
    ensures if j < r then logs[j].term < logs[i].term else logs[j].term == logs[i].term
  {
  }

  /** Successive refusals by a follower whose log stays the same. */
  ghost predicate Refusals(ts: seq<Trial>, peer: nat, logs: Log) {
    && (forall k :: 0 <= k < |ts| ==> Refused(ts[k], peer) && ts[k].follower.logs == logs)
    && (forall k :: 1 <= k < |ts| ==> Follows(ts[k - 1], ts[k], peer))
  }

  ghost predicate Follows(t: Trial, t': Trial, peer: nat)
    requires Refused(t, peer)
  {
    Grew(After(t, peer), t'.sender, peer)
  }

  function ConflictTerm(t: Trial, peer: nat): int
    requires CanBuild(t.sender, peer)
  {
    Answered(t, peer).conflictTerm
  }

  /** The following refusal has its own, smaller conflict term. */
  lemma ConflictsDecrease(t: Trial, t': Trial, peer: nat, bound: int)
    requires Refused(t, peer) && Refused(t', peer) && Follows(t, t', peer)
    requires t'.follower.logs == t.follower.logs && LogOk(t.follower.logs, bound)
    ensures 1 <= t'.sender.nextIndex[peer] < t.sender.nextIndex[peer]
    ensures 1 <= ConflictTerm(t', peer)
    ensures ConflictTerm(t, peer) != -1 ==> ConflictTerm(t', peer) < ConflictTerm(t, peer)
  {
    RefusalBacksUp(t, peer, bound);
    RefusalBacksUp(t', peer, bound);
    var p := t'.sender.nextIndex[peer] - 1;
    hide HandleAppend, LogOk;
    ReceiverLog(t, peer);
    assert t'.sender.logs[p] == After(t, peer).logs[p] == t.sender.logs[p];
  }

  lemma ReceiverLog(t: Trial, peer: nat)
    requires Refused(t, peer)
    ensures After(t, peer).logs == t.receiver.logs
  {
    hide AfterTerm, HandleAppend;
  }

  ghost function PositiveTerms(logs: Log): set<int> {
    set i | 1 <= i < |logs| :: logs[i].term
  }

  ghost function ConflictTerms(ts: seq<Trial>, peer: nat): (cs: seq<int>)
    requires forall k :: 0 <= k < |ts| ==> CanBuild(ts[k].sender, peer)
    ensures |cs| == |ts| && forall k :: 0 <= k < |ts| ==> cs[k] == ConflictTerm(ts[k], peer)
  {
    seq(|ts|, k requires 0 <= k < |ts| => ConflictTerm(ts[k], peer))
  }

  lemma {:induction false} FewDecreasing(cs: seq<int>, all: set<int>)
    requires forall k :: 0 <= k < |cs| ==> cs[k] in all
    requires forall j, k :: 0 <= j < k < |cs| ==> cs[k] < cs[j]
    ensures |cs| <= |all|
  {
    if cs != [] {
      FewDecreasing(cs[1..], all - {cs[0]});
    }
  }

  lemma {:induction false} Decreasing(cs: seq<int>, j: nat, k: nat)
    requires forall i :: 1 <= i < |cs| ==> cs[i] < cs[i - 1]
    requires j < k < |cs|
    ensures cs[k] < cs[j]
  {
    if j < k - 1 {
      Decreasing(cs, j, k - 1);
    }
  }

  lemma ConflictInLog(t: Trial, peer: nat, bound: int)
    requires Refused(t, peer) && LogOk(t.follower.logs, bound) && ConflictTerm(t, peer) != -1
    ensures ConflictTerm(t, peer) in PositiveTerms(t.follower.logs)
  {
    RefusalBacksUp(t, peer, bound);
    var prev := t.sender.nextIndex[peer] - 1;
    hide HandleAppend;
    assert t.follower.logs[prev].term in PositiveTerms(t.follower.logs);
  }

  /** A follower refuses at most once for each positive term of its log, and once
      more; on the way the index tried falls and stays positive. */
  lemma BackUpConverges(ts: seq<Trial>, peer: nat, logs: Log, bound: int)
    requires Refusals(ts, peer, logs) && LogOk(logs, bound)
    ensures |ts| <= |PositiveTerms(logs)| + 1
    ensures forall k :: 1 <= k < |ts| ==>
      && 1 <= ts[k].sender.nextIndex[peer] < ts[k - 1].sender.nextIndex[peer]
      && 1 <= ConflictTerm(ts[k], peer)
      && (k >= 2 ==> ConflictTerm(ts[k], peer) < ConflictTerm(ts[k - 1], peer))
  {
    forall k | 1 <= k < |ts|
      ensures 1 <= ts[k].sender.nextIndex[peer] < ts[k - 1].sender.nextIndex[peer]
      ensures 1 <= ConflictTerm(ts[k], peer)
      ensures ConflictTerm(ts[k - 1], peer) != -1 ==> ConflictTerm(ts[k], peer) < ConflictTerm(ts[k - 1], peer)
      ensures ConflictTerm(ts[k], peer) in PositiveTerms(logs)
    {
      assert Follows(ts[k - 1], ts[k], peer);
      ConflictsDecrease(ts[k - 1], ts[k], peer, bound);
      ConflictInLog(ts[k], peer, bound);
    }
    if |ts| > 1 {
      hide Refused, Follows, ConflictTerm, LogOk, PositiveTerms;
      var cs := ConflictTerms(ts, peer)[1..];
      forall i | 1 <= i < |cs| ensures cs[i] < cs[i - 1] {
        assert cs[i] == ConflictTerm(ts[i + 1], peer) && cs[i - 1] == ConflictTerm(ts[i], peer);
      }
      forall j, k | 0 <= j < k < |cs| ensures cs[k] < cs[j] {
        Decreasing(cs, j, k);
      }
      forall k | 0 <= k < |cs| ensures cs[k] in PositiveTerms(logs) {
        assert cs[k] == ConflictTerm(ts[k + 1], peer);
      }
      FewDecreasing(cs, PositiveTerms(logs));
    }
  }
}
