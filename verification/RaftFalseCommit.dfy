/**
 What this code does not promise about commits, as concrete sound runs of three
 servers.  Server 0 gets three entries in term 1 and server 2 one in term 2; each
 then leads again without the other's entries.
  - A success that comes late makes a leader commit what no other server holds
    (raft/raft_log_replication.go:178-199).
  - A leader whose log was cut below its commit index makes a follower commit an
    entry the leader does not have, and take the clamp (lines 134-143).
  - A refusal that comes late makes its receiver index its log out of bounds
    (lines 205-221).
 */
module RaftFalseCommit {
  import opened Common
  import opened RaftServer
  import opened RaftCluster
  import opened RaftElection
  import opened RaftReplication
  import opened RaftCommit
  import opened RaftFollow
  import opened RaftScenario

  /** What server 0 and server 2 start with. */
  const OWN := [SENTINEL, LogEntry(1, 1), LogEntry(2, 1), LogEntry(3, 1)]
  const RIVAL := [SENTINEL, LogEntry(4, 2)]

  /** With what they get later. */
  const OWN_LONGER := OWN + [LogEntry(5, 3)]
  const OWN_LONGEST := OWN_LONGER + [LogEntry(6, 5)]
  const RIVAL_LONGER := RIVAL + [LogEntry(7, 4)]

  const ASK_2 := VoteRequest(2, 2, 0, 0)
  const ASK_3 := VoteRequest(3, 0, 3, 1)
  const ASK_4 := VoteRequest(4, 2, 1, 2)
  const ACCEPTED := AppendReply(0, true, 0, 0)

  /** Server 0 leads term 1. */
  lemma FirstLeader() returns (x: Scene)
    ensures Reached(x)
    ensures x.g.servers == [At(0, Leader, 1, 0, [SENTINEL], 0, ONES, ZEROS),
                            At(1, Follower, 1, 0, [SENTINEL], 0, ONES, ZEROS), Boot(2, 3, None)]
  {
    hide Reached, OthersWait;
    Fresh(0);
    Fresh(1);
    x := Opening();
    x := Win(x, 0);
  }

  /** Entry `k` of its three. */
  lemma OwnEntry(x: Scene, k: nat) returns (x': Scene)
    requires Reached(x) && |x.g.servers| == 3 && 1 <= k <= 3
    requires x.g.servers[0] == At(0, Leader, 1, 0, OWN[..k], 0, [k, 1, 1], [k - 1, 0, 0])
    ensures Reached(x')
    ensures x'.g.servers == x.g.servers[0 := At(0, Leader, 1, 0, OWN[..k + 1], 0, [k + 1, 1, 1], [k, 0, 0])]
  {
    hide Reached;
    x' := Go(x, 0, k);
    assert OWN[..k] + [LogEntry(k, 1)] == OWN[..k + 1];
    assert [k, 1, 1][0 := k + 1] == [k + 1, 1, 1] && [k - 1, 0, 0][0 := k] == [k, 0, 0];
  }

  /** Server 0 gets its entries. */
  lemma OwnEntries() returns (x: Scene)
    ensures Reached(x)
    ensures x.g.servers == [At(0, Leader, 1, 0, OWN, 0, [4, 1, 1], [3, 0, 0]),
                            At(1, Follower, 1, 0, [SENTINEL], 0, ONES, ZEROS), Boot(2, 3, None)]
  {
    hide Reached;
    x := FirstLeader();
    assert OWN[..1] == [SENTINEL] && OWN[..4] == OWN;
    x := OwnEntry(x, 1);
    x := OwnEntry(x, 2);
    x := OwnEntry(x, 3);
  }

  /** Server 2 leads term 2 and gets its entry. */
  lemma RivalEntry() returns (x: Scene)
    ensures Reached(x) && ASK_2 in x.g.voteRequests
    ensures x.g.servers == [At(0, Leader, 1, 0, OWN, 0, [4, 1, 1], [3, 0, 0]),
                            At(1, Follower, 2, 2, [SENTINEL], 0, ONES, ZEROS),
                            At(2, Leader, 2, 2, RIVAL, 0, [1, 1, 2], [0, 0, 1])]
  {
    hide Reached, OthersWait, Open;
    Fresh(2);
    x := OwnEntries();
    x := Wait(x, 2);
    assert x.g.servers[2] == At(2, Candidate, 1, 2, [SENTINEL], 0, ONES, ZEROS);
    x := Win(x, 2);
    x := Go(x, 2, 4);
    assert [SENTINEL] + [LogEntry(4, 2)] == RIVAL;
    assert x.g.servers[2] == At(2, Leader, 2, 2, RIVAL, 0, [1, 1, 2], [0, 0, 1]);
  }

  /** Server 0 leads term 3. */
  lemma OwnAgain() returns (x: Scene)
    ensures Reached(x) && ASK_3 in x.g.voteRequests
    ensures x.g.servers == [At(0, Leader, 3, 0, OWN, 0, [4, 4, 4], ZEROS),
                            At(1, Follower, 3, 0, [SENTINEL], 0, ONES, ZEROS),
                            At(2, Leader, 2, 2, RIVAL, 0, [1, 1, 2], [0, 0, 1])]
  {
    hide Reached, OthersWait;
    x := RivalEntry();
    x := Fall(x, 0, ASK_2);
    assert x.g.servers[0] == At(0, Follower, 2, -1, OWN, 0, [4, 1, 1], [3, 0, 0]);
    assert RequestOf(Timeout(x.g.servers[0])) == ASK_3;
    x := Win(x, 0);
  }

  // ----- server 0 replicates its entries and gets another

  const GIVEN := Sent(1, AppendArgs(3, 0, 0, 0, OWN[1..], 0), OWN)

  lemma TakesAll()
    ensures Merge([SENTINEL], 0, OWN[1..]) == OWN
  {
    assert FirstUnmatched([SENTINEL], 0, OWN[1..], 0) == 0;
    assert [SENTINEL][..1] + OWN[1..][0..] == OWN;
  }

  lemma Replicated() returns (x: Scene)
    ensures Reached(x) && ASK_3 in x.g.voteRequests && (GIVEN, ACCEPTED) in x.g.appendReplies
    ensures x.g.servers == [At(0, Leader, 3, 0, OWN_LONGER, 0, [5, 1, 4], [4, 0, 0]),
                            At(1, Follower, 3, 0, OWN, 0, ONES, ZEROS),
                            At(2, Leader, 2, 2, RIVAL, 0, [1, 1, 2], [0, 0, 1])]
  {
    hide Reached;
    x := OwnAgain();
    assert NextSent(x.g, 0, 1).args == AppendArgs(3, 0, 3, 1, [], 0);
    assert HandleAppend(x.g.servers[1], NextSent(x.g, 0, 1).args) == (x.g.servers[1], AppendReply(3, false, -1, 1));
    x := Ask(x, 0, 1);
    assert x.g.servers[0] == At(0, Leader, 3, 0, OWN, 0, [4, 1, 4], ZEROS);
    assert NextSent(x.g, 0, 1) == GIVEN;
    TakesAll();
    assert HandleAppend(x.g.servers[1], GIVEN.args) == (At(1, Follower, 3, 0, OWN, 0, ONES, ZEROS), ACCEPTED);
    x := Give(x, 0, 1);
    x := Go(x, 0, 5);
    assert [4, 1, 4][0 := 5] == [5, 1, 4] && ZEROS[0 := 4] == [4, 0, 0];
  }

  /** Server 2 leads term 4. */
  lemma RivalAgain(x: Scene) returns (x': Scene)
    requires Reached(x) && ASK_3 in x.g.voteRequests && |x.g.servers| == 3
    requires x.g.servers[1].role.Follower? && x.g.servers[1].currentTerm == 3 && x.g.servers[1].logs != []
    requires LastTerm(x.g.servers[1].logs) < 2
    requires x.g.servers[2] == At(2, Leader, 2, 2, RIVAL, 0, [1, 1, 2], [0, 0, 1])
    ensures Reached(x') && Kept(x.g, x'.g) && ASK_4 in x'.g.voteRequests
    ensures x'.g.servers == [x.g.servers[0], Persist(x.g.servers[1].(currentTerm := 4, votedFor := 2)),
                             At(2, Leader, 4, 2, RIVAL, 0, [2, 2, 2], ZEROS)]
  {
    hide Reached, OthersWait;
    x' := Fall(x, 2, ASK_3);
    assert x'.g.servers[2] == At(2, Follower, 3, -1, RIVAL, 0, [1, 1, 2], [0, 0, 1]);
    assert RequestOf(Timeout(x'.g.servers[2])) == ASK_4;
    x' := Win(x', 2);
  }

  /** A log of server 0 meets an append of server 2 in term 4. */
  ghost predicate Foreign(s: Server) {
    |s.logs| >= 2 && s.logs[0] == SENTINEL && s.logs[1].term == 1 && s.currentTerm <= 4 && s.commitIndex >= 0
  }

  /** First it refuses, then it takes the log of server 2 for its own. */
  lemma Refuses(s: Server)
    requires Foreign(s)
    ensures HandleAppend(s, AppendArgs(4, 2, 1, 2, [], 0)) ==
      (Persist(Adopt(s, 4)), AppendReply(4, false, 1, 1))
  {
  }

  lemma Cut(s: Server)
    requires Foreign(s)
    ensures HandleAppend(s, AppendArgs(4, 2, 0, 0, RIVAL[1..], 0)) ==
      (Persist(Adopt(s, 4).(logs := RIVAL)), ACCEPTED)
  {
    var entries := RIVAL[1..];
    assert FirstUnmatched(s.logs, 0, entries, 0) == 0;
    assert s.logs[..1] + entries[0..] == RIVAL;
  }

  lemma Overwrite(x: Scene, p: nat) returns (x': Scene)
    requires Reached(x) && |x.g.servers| == 3 && p < 2 && Foreign(x.g.servers[p])
    requires x.g.servers[2] == At(2, Leader, 4, 2, RIVAL, 0, [2, 2, 2], ZEROS)
    ensures Reached(x') && Kept(x.g, x'.g)
    ensures x'.g.servers == x.g.servers[p := Persist(Adopt(x.g.servers[p], 4).(logs := RIVAL))]
                                       [2 := At(2, Leader, 4, 2, RIVAL, 0, [2, 2, 2][p := 1], ZEROS)]
  {
    hide Reached, HandleAppend;
    var s := x.g.servers[p];
    assert NextSent(x.g, 2, p).args == AppendArgs(4, 2, 1, 2, [], 0);
    Refuses(s);
    x' := Ask(x, 2, p);
    assert x'.g.servers[2] == At(2, Leader, 4, 2, RIVAL, 0, [2, 2, 2][p := 1], ZEROS);
    assert NextSent(x'.g, 2, p).args == AppendArgs(4, 2, 0, 0, RIVAL[1..], 0);
    Cut(x'.g.servers[p]);
    x' := Give(x', 2, p);
    assert Adopt(Persist(Adopt(s, 4)), 4) == Persist(Adopt(s, 4));
  }

  // ----- a success that comes two terms late

  /** Server 1's log is overwritten; server 0 leads term 5 and gets one more entry. */
  lemma BeforeLateSuccess() returns (x: Scene)
    ensures Reached(x) && (GIVEN, ACCEPTED) in x.g.appendReplies
    ensures x.g.servers == [At(0, Leader, 5, 0, OWN_LONGEST, 0, [6, 5, 5], [5, 0, 0]),
                            At(1, Follower, 5, 0, RIVAL, 0, ONES, ZEROS),
                            At(2, Leader, 4, 2, RIVAL, 0, [2, 1, 2], ZEROS)]
  {
    hide Reached, OthersWait;
    x := Replicated();
    x := RivalAgain(x);
    x := Overwrite(x, 1);
    assert [2, 2, 2][1 := 1] == [2, 1, 2];
    assert x.g.servers[1] == At(1, Follower, 4, 2, RIVAL, 0, ONES, ZEROS);
    x := Fall(x, 0, ASK_4);
    assert x.g.servers[0] == At(0, Follower, 4, -1, OWN_LONGER, 0, [5, 1, 4], [4, 0, 0]);
    x := Win(x, 0);
    x := Go(x, 0, 6);
    assert [5, 5, 5][0 := 6] == [6, 5, 5] && ZEROS[0 := 5] == [5, 0, 0];
  }

  /** A majority reaches 3 and nothing above. */
  lemma CountsThree(high: int)
    requires high == 4 || high == 5
    ensures CommitUpTo([high, 3, 0], 0, high) == 3
  {
    var m := [high, 3, 0];
    assert m[..2] == [high, 3] && m[..2][..1] == [high] && m[..2][..1][..0] == [];
    forall i | 1 <= i <= high ensures Count(m, i) == if i <= 3 then 2 else 1 {
      assert Count(m[..2][..1], i) == 1;
      assert Count(m[..2], i) == if i <= 3 then 2 else 1;
    }
    assert CommitUpTo(m, 0, 3) == 3;
    assert CommitUpTo(m, 0, 4) == 3;
  }

  lemma LateSuccess(s: Server)
    requires s == At(0, Leader, 5, 0, OWN_LONGEST, 0, [6, 5, 5], [5, 0, 0])
    ensures CanHandleReply(s, 1, GIVEN.args, ACCEPTED)
    ensures var s' := HandleAppendReply(s, 1, GIVEN.args, ACCEPTED); s'.commitIndex == 3 && s'.logs == s.logs
  {
    assert s.matchIndex[1 := 3] == [5, 3, 0];
    CountsThree(5);
  }

  lemma Alone(g: Cluster)
    requires (GIVEN, ACCEPTED) in g.appendReplies
    requires g.servers == [At(0, Leader, 5, 0, OWN_LONGEST, 0, [6, 5, 5], [5, 0, 0]),
                           At(1, Follower, 5, 0, RIVAL, 0, ONES, ZEROS),
                           At(2, Leader, 4, 2, RIVAL, 0, [2, 1, 2], ZEROS)]
    ensures Enabled(g, AppendReplyStep(GIVEN, ACCEPTED))
    ensures var g' := DoAppendReply(g, GIVEN, ACCEPTED);
      |g'.servers| == 3 && g'.servers[0].commitIndex == 3 && Replicas(g', 0, 3) == {0}
  {
    LateSuccess(g.servers[0]);
    hide HandleAppendReply;
    assert |RIVAL| == 2;
  }

  /** The late success makes server 0 commit three entries that no other server holds. */
  lemma CommitAlone() returns (steps: seq<Step>)
    ensures SoundRun(3, steps) && InTermRun(3, steps) && Enabled(Run(3, steps), AppendReplyStep(GIVEN, ACCEPTED))
    ensures Run(3, steps).servers[0].role.Leader? && Run(3, steps).servers[0].commitIndex == 0
    ensures var g' := DoAppendReply(Run(3, steps), GIVEN, ACCEPTED);
      |g'.servers| == 3 && g'.servers[0].commitIndex == 3 && Replicas(g', 0, 3) == {0}
  {
    hide Run, SoundRun, InTermRun, Replicas, HandleAppendReply;
    var x := BeforeLateSuccess();
    steps := x.steps;
    Alone(x.g);
  }

  // ----- a commit index past the log

  lemma OwnCommits(s: Server)
    requires s == At(0, Leader, 3, 0, OWN_LONGER, 0, [5, 1, 4], [4, 0, 0])
    ensures CanHandleReply(s, 1, GIVEN.args, ACCEPTED)
    ensures HandleAppendReply(s, 1, GIVEN.args, ACCEPTED) ==
      At(0, Leader, 3, 0, OWN_LONGER, 3, [5, 4, 4], [4, 3, 0])
  {
    assert s.matchIndex[1 := 3] == [4, 3, 0] && s.nextIndex[1 := 4] == [5, 4, 4];
    CountsThree(4);
  }

  /** Server 0 hears the success in its term and commits its three entries; server 2
      leads term 4 and overwrites them. */
  lemma CutBelowCommit() returns (x: Scene)
    ensures Reached(x)
    ensures x.g.servers == [At(0, Follower, 4, -1, RIVAL, 3, [5, 4, 4], [4, 3, 0]),
                            At(1, Follower, 4, 2, OWN, 0, ONES, ZEROS),
                            At(2, Leader, 4, 2, RIVAL, 0, [1, 2, 2], ZEROS)]
  {
    hide Reached, HandleAppendReply;
    x := Replicated();
    OwnCommits(x.g.servers[0]);
    x := Hear(x, GIVEN, ACCEPTED);
    x := RivalAgain(x);
    assert x.g.servers[0] == At(0, Leader, 3, 0, OWN_LONGER, 3, [5, 4, 4], [4, 3, 0]);
    x := Overwrite(x, 0);
    assert [2, 2, 2][0 := 1] == [1, 2, 2];
    assert x.g.servers[0] == At(0, Follower, 4, -1, RIVAL, 3, [5, 4, 4], [4, 3, 0]);
  }

  /** The append of term 5 that names a commit index past its sender's log. */
  const EMPTY_APPEND := AppendArgs(5, 0, 1, 2, [], 3)
  const OVERREACHING := Sent(2, EMPTY_APPEND, RIVAL)

  /** Server 0 leads term 5 and sends to server 2, which may have got another entry. */
  lemma Overreach(longer: bool) returns (x: Scene)
    ensures Reached(x) && |x.g.servers| == 3 && OVERREACHING in x.g.appends
    ensures x.g.servers[0] == At(0, Leader, 5, 0, RIVAL, 3, [2, 2, 2], ZEROS)
    ensures var s := x.g.servers[2];
      s.currentTerm == 4 && s.commitIndex == 0 && s.logs == if longer then RIVAL_LONGER else RIVAL
  {
    hide Reached, OthersWait;
    x := CutBelowCommit();
    if longer {
      x := Go(x, 2, 7);
    }
    x := Win(x, 0);
    assert NextSent(x.g, 0, 2) == OVERREACHING;
    x := Send(x, 0, 2);
  }

  lemma Follows(s: Server)
    requires s.currentTerm == 4 && s.commitIndex == 0 && (s.logs == RIVAL || s.logs == RIVAL_LONGER)
    ensures Clamps(s, EMPTY_APPEND) && HandleAppend(s, EMPTY_APPEND).1.success
    ensures var s' := HandleAppend(s, EMPTY_APPEND).0; s'.logs == s.logs && s'.commitIndex == LastIndex(s.logs)
  {
    assert Merge(s.logs, 1, []) == s.logs;
  }

  /** In a sound run with all replies handled in their term, the clamp is taken. */
  lemma ClampTaken() returns (steps: seq<Step>)
    ensures SoundRun(3, steps) && InTermRun(3, steps) && Enabled(Run(3, steps), AppendStep(OVERREACHING))
    ensures var s := Run(3, steps).servers[2];
      && HandleAppend(s, EMPTY_APPEND).1.success && |s.logs| == 2 && Clamps(s, EMPTY_APPEND)
      && HandleAppend(s, EMPTY_APPEND).0.commitIndex == 1 < EMPTY_APPEND.leaderCommit
  {
    hide Run, SoundRun, InTermRun, HandleAppend, Clamps;
    var x := Overreach(false);
    steps := x.steps;
    Follows(x.g.servers[2]);
  }

  /** In another, a follower commits an entry that its leader does not have. */
  lemma CommitBeyond() returns (steps: seq<Step>)
    ensures SoundRun(3, steps) && InTermRun(3, steps) && Enabled(Run(3, steps), AppendStep(OVERREACHING))
    ensures var g := Run(3, steps);
      var s' := HandleAppend(g.servers[2], EMPTY_APPEND).0;
      && |g.servers| == 3 && Leads(g, 0, 5) && HandleAppend(g.servers[2], EMPTY_APPEND).1.success
      && g.servers[2].commitIndex == 0 && s'.commitIndex == 2 < |s'.logs| && |g.servers[0].logs| == 2
  {
    hide Run, SoundRun, InTermRun, HandleAppend, Clamps;
    var x := Overreach(true);
    steps := x.steps;
    Follows(x.g.servers[2]);
  }

  // ----- a refusal whose search leaves the log

  const PROBE := Sent(1, AppendArgs(3, 0, 3, 1, [], 0), OWN)
  const STALE := AppendReply(4, false, 0, 0)

  /** Server 0 sends in term 3; server 1, by then in term 4, refuses; server 2 cuts the
      log of server 0. */
  lemma BeforeStaleRefusal() returns (x: Scene)
    ensures Reached(x) && (PROBE, STALE) in x.g.appendReplies && |x.g.servers| == 3
    ensures x.g.servers[0] == At(0, Follower, 4, -1, RIVAL, 0, [4, 4, 4], ZEROS)
  {
    hide Reached;
    x := OwnAgain();
    assert NextSent(x.g, 0, 1) == PROBE;
    x := Send(x, 0, 1);
    x := RivalAgain(x);
    assert HandleAppend(x.g.servers[1], PROBE.args) == (x.g.servers[1], STALE);
    x := Receive(x, PROBE);
    x := Overwrite(x, 0);
  }

  /** The refusal makes server 0 look for term 0 from index 2 of a log of length 2. */
  lemma StaleRefusal() returns (steps: seq<Step>)
    ensures SoundRun(3, steps) && InTermRun(3, steps) && (PROBE, STALE) in Run(3, steps).appendReplies
    ensures |Run(3, steps).servers| == 3
    ensures var s := Run(3, steps).servers[0];
      Scans(s, STALE) && |s.logs| < PROBE.args.prevLogIndex && !CanHandleReply(s, 1, PROBE.args, STALE)
  {
    hide Run, SoundRun, InTermRun;
    var x := BeforeStaleRefusal();
    steps := x.steps;
  }
}
