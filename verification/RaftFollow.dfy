/**
 What a follower commits (raft/raft_log_replication.go:134-143, 161-173, 235-236):
 when a new commit index lies in the part of its log equal to the sender's, when
 the clamp to the end of the log is taken, and in which runs neither can go wrong.
 */
module RaftFollow {
  import opened RaftServer
  import opened RaftCluster
  import opened RaftElection
  import opened RaftLogShape
  import opened RaftMatching
  import opened RaftReplication
  import opened RaftCommit

  function Min(a: int, b: int): int { if a < b then a else b }

  /** The branch that clamps the commit index to the end of the log is taken. */
  ghost predicate Clamps(s: Server, a: AppendArgs)
    requires 0 <= a.prevLogIndex < |s.logs|
  {
    s.commitIndex < a.leaderCommit && LastIndex(Merge(s.logs, a.prevLogIndex, a.entries)) < a.leaderCommit
  }

  /** An append covers the commit index it names exactly when its sender has it inside
      its own log; then no receiver clamps. */
  lemma NeverClamped(sender: Server, peer: nat, s: Server)
    requires CanBuild(sender, peer) && sender.nextIndex[peer] <= |s.logs|
    ensures var a := BuildAppend(sender, peer);
      && (a.leaderCommit <= a.prevLogIndex + |a.entries| <==> sender.commitIndex < |sender.logs|)
      && (sender.commitIndex < |sender.logs| ==> !Clamps(s, a))
  {
    hide Merge;
    var a := BuildAppend(sender, peer);
    MergeReaches(s.logs, a.prevLogIndex, a.entries);
  }

  // ----- one accepted append, in a sound run

  /** The sender's log ends before the commit index it names, and the receiver has
      more than the sender: it cannot tell what the sender has not. */
  ghost predicate Overreaches(s: Server, m: Sent) {
    |m.log| <= m.args.leaderCommit && m.log < s.logs
  }

  /** The commit index named is past the sender's log, and past the receiver's if that
      extends the sender's. */
  ghost predicate PastBoth(s: Server, m: Sent) {
    |m.log| <= m.args.leaderCommit && (m.log <= s.logs ==> |s.logs| <= m.args.leaderCommit)
  }

  lemma AgreedFacts(g: Cluster, m: Sent)
    requires SoundState(g) && m in g.appends && m.to < |g.servers|
    ensures SentOk(m) && Agrees(g.servers[m.to].logs, m.log)
  {
    assert MessageOk(g, m) && ServerLog(g, m.to);
  }

  lemma WholePrefix(a: Log, b: Log)
    requires b <= a
    ensures forall i :: 0 <= i < |b| ==> Same(a, b, i)
  {
    forall i | 0 <= i < |b| ensures Same(a, b, i) {
      assert a[..i + 1] == b[..i + 1];
    }
  }

  /** The receiver keeps its log if that extends the sender's, and else takes the
      sender's. */
  lemma LongerWins(logs: Log, full: Log, prev: nat)
    requires Agrees(logs, full)
    requires prev < |logs| && prev < |full| && logs[prev].term == full[prev].term
    ensures Merge(logs, prev, full[prev + 1..]) == if full <= logs then logs else full
  {
    var m := MergeAgreed(logs, full, prev);
    hide Merge, Agrees;
    assert full[..|full|] == full;
    if m == |full| {
      assert full == logs[..m];
    }
  }

  lemma Accepted(s: Server, a: AppendArgs)
    requires 0 <= a.prevLogIndex && HandleAppend(s, a).1.success
    ensures a.prevLogIndex < |s.logs| && s.logs[a.prevLogIndex].term == a.prevLogTerm
    ensures var s' := HandleAppend(s, a).0;
      && s'.logs == Merge(s.logs, a.prevLogIndex, a.entries)
      && s'.commitIndex ==
           if s.commitIndex < a.leaderCommit then Min(a.leaderCommit, LastIndex(s'.logs)) else s.commitIndex
  {
    hide Merge, RunStart;
  }

  lemma ServerCommits(s: Server, m: Sent)
    requires SentOk(m) && Agrees(s.logs, m.log) && HandleAppend(s, m.args).1.success
    requires 0 <= s.commitIndex < m.args.leaderCommit
    ensures var s' := HandleAppend(s, m.args).0;
      && m.args.prevLogIndex < |s.logs| && s'.commitIndex == Min(m.args.leaderCommit, LastIndex(s'.logs))
      && (Same(s'.logs, m.log, s'.commitIndex) <==> !Overreaches(s, m))
      && (Clamps(s, m.args) <==> PastBoth(s, m))
  {
    hide HandleAppend, Merge, Agrees, LogOk;
    Accepted(s, m.args);
    LongerWins(s.logs, m.log, m.args.prevLogIndex);
    WholePrefix(HandleAppend(s, m.args).0.logs, m.log);
  }

  /** In every sound run, when an accepted append moves a follower's commit index, the
      new one lies in the part of the log equal to the sender's exactly unless the
      append overreaches, and the clamp is taken exactly if the commit index named is
      past both logs. */
  lemma FollowerCommits(n: nat, steps: seq<Step>, m: Sent)
    requires SoundRun(n, steps) && Enabled(Run(n, steps), AppendStep(m))
    requires var s := Run(n, steps).servers[m.to];
      HandleAppend(s, m.args).1.success && s.commitIndex < m.args.leaderCommit
    ensures var s := Run(n, steps).servers[m.to];
      var s' := HandleAppend(s, m.args).0;
      && m.args.prevLogIndex < |s.logs| && s'.commitIndex == Min(m.args.leaderCommit, LastIndex(s'.logs))
      && (Same(s'.logs, m.log, s'.commitIndex) <==> !Overreaches(s, m))
      && (Clamps(s, m.args) <==> PastBoth(s, m))
  {
    hide Run, SoundState, HandleAppend;
    RunSound(n, steps);
    RunCommits(n, steps);
    var g := Run(n, steps);
    AgreedFacts(g, m);
    hide SentOk, Agrees, Same, Overreaches, PastBoth, Clamps;
    ServerCommits(g.servers[m.to], m);
  }

  // ----- runs in which nothing committed is cut off

  ghost predicate ServersInside(g: Cluster) {
    forall v :: 0 <= v < |g.servers| ==> 0 <= g.servers[v].commitIndex < |g.servers[v].logs|
  }

  ghost predicate MessagesInside(g: Cluster) {
    forall m :: m in g.appends ==> m.args.leaderCommit < |m.log|
  }

  /** The append is accepted and cuts its receiver's log at or below its commit index. */
  ghost predicate Cuts(s: Server, a: AppendArgs) {
    && s.currentTerm <= a.term && 0 <= a.prevLogIndex < |s.logs| && s.logs[a.prevLogIndex].term == a.prevLogTerm
    && a.leaderCommit <= s.commitIndex && |Merge(s.logs, a.prevLogIndex, a.entries)| <= s.commitIndex
  }

  ghost predicate CutsCommitted(g: Cluster, step: Step) {
    step.AppendStep? && Enabled(g, step) && Cuts(g.servers[step.sent.to], step.sent.args)
  }

  lemma AppendInside(s: Server, a: AppendArgs)
    requires 0 <= a.prevLogIndex && 0 <= s.commitIndex < |s.logs|
    ensures var s' := HandleAppend(s, a).0; 0 <= s'.commitIndex < |s'.logs| <==> !Cuts(s, a)
  {
    hide Merge, RunStart;
    if a.prevLogIndex < |s.logs| {
      MergeReaches(s.logs, a.prevLogIndex, a.entries);
    }
  }

  lemma ReplyInside(s: Server, peer: nat, a: AppendArgs, r: AppendReply)
    requires CanHandleReply(s, peer, a, r) && 0 <= s.commitIndex < |s.logs|
    ensures var s' := HandleAppendReply(s, peer, a, r); 0 <= s'.commitIndex < |s'.logs|
  {
    hide CommitUpTo, BackUp;
    if r.success {
      CommitCounted(s.matchIndex[peer := a.prevLogIndex + |a.entries|], s.commitIndex, LastIndex(s.logs));
    }
  }

  lemma InsideMoves(g: Cluster, g': Cluster, v: nat)
    requires ServersInside(g) && v < |g.servers| == |g'.servers| && g'.servers == g.servers[v := g'.servers[v]]
    ensures ServersInside(g') <==> 0 <= g'.servers[v].commitIndex < |g'.servers[v].logs|
  {
  }

  lemma InsideStep(g: Cluster, step: Step)
    requires ElectionInv(g) && ServersInside(g)
    ensures ServersInside(Apply(g, step)) <==> !CutsCommitted(g, step)
  {
    hide ElectionInv, ServersInside, HandleVote, HandleVoteReply, HandleAppend, HandleAppendReply, Cuts;
    if Enabled(g, step) {
      match step
      case TimeoutStep(v) => InsideAt(g, v); InsideMoves(g, DoTimeout(g, v), v);
      case VoteStep(v, a) => InsideAt(g, v); VoteInside(g.servers[v], a); InsideMoves(g, DoVote(g, v, a), v);
      case VoteReplyStep(a, peer, r) => VoteReplyInside(g, a, peer, r);
      case StartStep(v, command) => InsideAt(g, v); InsideMoves(g, DoStart(g, v, command), v);
      case SendStep(v, peer) => InsideAt(g, v); InsideMoves(g, DoSend(g, v, peer), v);
      case AppendStep(sent) =>
        InsideAt(g, sent.to);
        AppendInside(g.servers[sent.to], sent.args);
        InsideMoves(g, DoAppend(g, sent), sent.to);
      case AppendReplyStep(sent, r) =>
        InsideAt(g, sent.args.leader);
        ReplyInside(g.servers[sent.args.leader], sent.to, sent.args, r);
        InsideMoves(g, DoAppendReply(g, sent, r), sent.args.leader);
      case CrashStep(v) => InsideAt(g, v); ServerAt(g, v); InsideMoves(g, DoCrash(g, v), v);
    }
  }

  lemma InsideAt(g: Cluster, v: nat)
    requires ServersInside(g) && v < |g.servers|
    ensures 0 <= g.servers[v].commitIndex < |g.servers[v].logs|
  {
  }

  lemma VoteInside(s: Server, a: VoteRequest)
    requires s.logs != []
    ensures var s' := HandleVote(s, a).0; s'.commitIndex == s.commitIndex && s'.logs == s.logs
  {
  }

  lemma VoteReplyInside(g: Cluster, a: VoteRequest, peer: nat, r: VoteReply)
    requires ServersInside(g) && Enabled(g, VoteReplyStep(a, peer, r))
    ensures ServersInside(DoVoteReply(g, a, peer, r))
  {
    hide ServersInside;
    InsideAt(g, a.candidate);
    InsideMoves(g, DoVoteReply(g, a, peer, r), a.candidate);
  }

  ghost predicate NothingCut(n: nat, steps: seq<Step>) {
    forall k :: 0 <= k < |steps| ==> !CutsCommitted(Run(n, steps[..k]), steps[k])
  }

  lemma NothingCutPrefix(n: nat, steps: seq<Step>, k: nat)
    requires NothingCut(n, steps) && k <= |steps|
    ensures NothingCut(n, steps[..k])
  {
    hide Run;
    forall j | 0 <= j < k ensures !CutsCommitted(Run(n, steps[..k][..j]), steps[..k][j]) {
      assert steps[..k][..j] == steps[..j];
    }
  }

  lemma {:induction false} RunInside(n: nat, steps: seq<Step>)
    requires NothingCut(n, steps)
    ensures ServersInside(Run(n, steps)) && MessagesInside(Run(n, steps))
  {
    if steps != [] {
      var k := |steps| - 1;
      NothingCutPrefix(n, steps, k);
      RunInside(n, steps[..k]);
      RunElection(n, steps[..k]);
      hide ElectionInv;
      InsideStep(Run(n, steps[..k]), steps[k]);
      MessagesStep(Run(n, steps[..k]), steps[k]);
    }
  }

  lemma MessagesStep(g: Cluster, step: Step)
    requires ServersInside(g) && MessagesInside(g)
    ensures MessagesInside(Apply(g, step))
  {
    hide HandleVote, HandleVoteReply, HandleAppend, HandleAppendReply, StartCommand;
    if Enabled(g, step) && step.SendStep? {
      InsideAt(g, step.v);
    }
  }

  /** In every run, sound or not: at every point every server has its commit index
      inside its log, exactly if no append ever cut a log at or below it. */
  lemma InsideExactly(n: nat, steps: seq<Step>)
    ensures (forall k :: 0 <= k <= |steps| ==> ServersInside(Run(n, steps[..k]))) <==> NothingCut(n, steps)
  {
    hide Run, ServersInside, CutsCommitted, Apply;
    if NothingCut(n, steps) {
      forall k | 0 <= k <= |steps| ensures ServersInside(Run(n, steps[..k])) {
        NothingCutPrefix(n, steps, k);
        RunInside(n, steps[..k]);
      }
    }
    if forall k :: 0 <= k <= |steps| ==> ServersInside(Run(n, steps[..k])) {
      forall k | 0 <= k < |steps| ensures !CutsCommitted(Run(n, steps[..k]), steps[k]) {
        assert ServersInside(Run(n, steps[..k])) && ServersInside(Run(n, steps[..k + 1]));
        RunElection(n, steps[..k]);
        RunLast(n, steps[..k + 1]);
        assert steps[..k + 1][..k] == steps[..k];
        InsideStep(Run(n, steps[..k]), steps[k]);
      }
    }
  }

  /** In such runs every append covers the commit index it names; no accepted one
      overreaches and none clamps. */
  lemma NothingCutCommits(n: nat, steps: seq<Step>, m: Sent)
    requires NothingCut(n, steps) && Enabled(Run(n, steps), AppendStep(m))
    requires HandleAppend(Run(n, steps).servers[m.to], m.args).1.success
    ensures var s := Run(n, steps).servers[m.to];
      && m.args.leaderCommit < |m.log| && !Overreaches(s, m)
      && m.args.prevLogIndex < |s.logs| && !Clamps(s, m.args)
  {
    RunInside(n, steps);
    RunShape(n, steps);
    hide Run, HandleAppend, Merge;
    var s := Run(n, steps).servers[m.to];
    Accepted(s, m.args);
    assert SentOk(m);
    MergeReaches(s.logs, m.args.prevLogIndex, m.args.entries);
  }
}
