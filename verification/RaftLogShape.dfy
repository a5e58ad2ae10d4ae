/**
 The shape of logs in every run: sorted by term from the term-0 sentinel, with
 terms the holder has reached.  It is what keeps the handlers' scans in bounds
 (raft/raft.go:102-122, raft/raft_log_replication.go:69-132, 161-173).
 */
module RaftLogShape {
  import opened Common
  import opened RaftServer
  import opened RaftCluster

  ghost predicate LogOk(logs: Log, bound: int) {
    && logs != [] && logs[0] == SENTINEL
    && (forall i, j :: 0 <= i < j < |logs| ==> logs[i].term <= logs[j].term)
    && (forall i :: 1 <= i < |logs| ==> 1 <= logs[i].term <= bound)
  }

  ghost predicate TermOk(s: Server) {
    0 <= s.currentTerm && (!s.role.Follower? ==> 1 <= s.currentTerm)
  }

  /** An append carries a slice of its sender's log, up to the end. */
  ghost predicate SentOk(m: Sent) {
    && LogOk(m.log, m.args.term) && 0 <= m.args.prevLogIndex < |m.log|
    && m.args.prevLogTerm == m.log[m.args.prevLogIndex].term
    && m.args.entries == m.log[m.args.prevLogIndex + 1..]
  }

  ghost predicate ShapeInv(g: Cluster) {
    && (forall v :: 0 <= v < |g.servers| ==> ServerShape(g.servers[v]))
    && (forall m :: m in g.appends ==> SentOk(m))
    && (forall q :: q in g.appendReplies ==> q.0 in g.appends)
  }

  ghost predicate SavedOk(s: Server) {
    match s.saved
    case Some(p) => 0 <= p.term && LogOk(p.logs, p.term)
    case None => true
  }

  ghost predicate ServerShape(s: Server) {
    TermOk(s) && LogOk(s.logs, s.currentTerm) && SavedOk(s)
  }

  lemma {:induction false} Matched(logs: Log, prev: nat, entries: Log, k: nat)
    requires k <= |entries| && prev + 1 + k <= |logs|
    ensures var u := FirstUnmatched(logs, prev, entries, k);
      var stop := if u == -1 then |entries| else u;
      && prev + 1 + stop <= |logs|
      && (forall i :: k <= i < stop ==> logs[prev + 1 + i].term == entries[i].term)
      && (u != -1 ==> prev + 1 + u == |logs| || logs[prev + 1 + u].term != entries[u].term)
    decreases |entries| - k
  {
    if k < |entries| && !(|logs| - 1 < prev + 1 + k || logs[prev + 1 + k].term != entries[k].term) {
      Matched(logs, prev, entries, k + 1);
    }
  }

  /** What a merge leaves: the receiver's log, which holds the whole slice by
      terms, or the receiver's matching prefix followed by the sender's log. */
  lemma Merged(logs: Log, full: Log, prev: nat) returns (m: nat)
    requires prev < |logs| && prev < |full| && logs[prev].term == full[prev].term
    ensures prev < m <= |full| && m <= |logs|
    ensures forall i :: prev <= i < m ==> logs[i].term == full[i].term
    ensures var logs' := Merge(logs, prev, full[prev + 1..]);
      if m == |full| then logs' == logs
      else logs' == logs[..m] + full[m..] && (m == |logs| || logs[m].term != full[m].term)
  {
    var entries := full[prev + 1..];
    Matched(logs, prev, entries, 0);
    var u := FirstUnmatched(logs, prev, entries, 0);
    m := prev + 1 + if u == -1 then |entries| else u;
    forall i | prev <= i < m ensures logs[i].term == full[i].term {
      if i > prev {
        assert logs[prev + 1 + (i - prev - 1)].term == entries[i - prev - 1].term;
      }
    }
    if u != -1 {
      assert entries[u..] == full[m..];
    }
  }

  /** The merged log reaches at least as far as the append. */
  lemma MergeReaches(logs: Log, prev: nat, entries: Log)
    requires prev < |logs|
    ensures prev + |entries| <= LastIndex(Merge(logs, prev, entries))
  {
    Matched(logs, prev, entries, 0);
  }

  lemma SpliceShape(a: Log, b: Log, m: nat, bound: int)
    requires LogOk(a, bound) && LogOk(b, bound) && 1 <= m <= |a| && m <= |b| && a[m - 1].term == b[m - 1].term
    ensures LogOk(a[..m] + b[m..], bound)
  {
    var r := a[..m] + b[m..];
    forall i | 0 <= i < |r| ensures r[i] == if i < m then a[i] else b[i] {}
    forall i, j | 0 <= i < j < |r| ensures r[i].term <= r[j].term {
      if i < m <= j {
        assert r[i] == a[i] && a[i].term <= a[m - 1].term;
        assert r[j] == b[j] && b[m - 1].term <= b[j].term;
      }
    }
  }

  lemma MergeShape(logs: Log, full: Log, prev: nat, bound: int)
    requires LogOk(logs, bound) && LogOk(full, bound)
    requires prev < |logs| && prev < |full| && logs[prev].term == full[prev].term
    ensures LogOk(Merge(logs, prev, full[prev + 1..]), bound)
  {
    var m := Merged(logs, full, prev);
    hide Merge, LogOk;
    SpliceShape(logs, full, m, bound);
  }

  lemma AppendShape(s: Server, m: Sent)
    requires ServerShape(s) && SentOk(m)
    ensures ServerShape(HandleAppend(s, m.args).0)
  {
    hide Merge, RunStart, LogOk;
    var a := m.args;
    if a.term >= s.currentTerm && a.prevLogIndex < |s.logs| && s.logs[a.prevLogIndex].term == a.prevLogTerm {
      LogOkGrows(s.logs, s.currentTerm, a.term);
      MergeShape(s.logs, m.log, a.prevLogIndex, a.term);
    } else if a.term >= s.currentTerm {
      LogOkGrows(s.logs, s.currentTerm, a.term);
    }
  }

  lemma LogOkGrows(logs: Log, a: int, b: int)
    requires LogOk(logs, a) && a <= b
    ensures LogOk(logs, b)
  {
  }

  /** The conflict scan of `AppendEntries` ends at index 1 or later. */
  lemma ScanInBounds(s: Server, m: Sent)
    requires LogOk(s.logs, s.currentTerm) && SentOk(m)
    requires m.args.prevLogIndex < |s.logs| && s.logs[m.args.prevLogIndex].term != m.args.prevLogTerm
    ensures 1 <= RunStart(s.logs, m.args.prevLogIndex) <= m.args.prevLogIndex
    ensures s.logs[m.args.prevLogIndex].term >= 1
  {
  }

  lemma SimpleShapes(s: Server)
    requires ServerShape(s)
    ensures ServerShape(Timeout(s)) && ServerShape(Restart(s))
  {
    LogOkGrows(s.logs, s.currentTerm, s.currentTerm + 1);
  }

  lemma StartShape(s: Server, command: Command)
    requires ServerShape(s) && s.me < |s.nextIndex| == |s.matchIndex|
    ensures ServerShape(StartCommand(s, command))
  {
  }

  lemma VoteShape(s: Server, a: VoteRequest)
    requires ServerShape(s)
    ensures ServerShape(HandleVote(s, a).0)
  {
    if a.term > s.currentTerm {
      LogOkGrows(s.logs, s.currentTerm, a.term);
    }
  }

  lemma VoteReplyShape(s: Server, r: VoteReply, votes: int)
    requires ServerShape(s)
    ensures ServerShape(HandleVoteReply(s, r, votes))
  {
    if r.term > s.currentTerm {
      LogOkGrows(s.logs, s.currentTerm, r.term);
    }
  }

  lemma AppendReplyShape(s: Server, peer: nat, a: AppendArgs, r: AppendReply)
    requires ServerShape(s) && CanHandleReply(s, peer, a, r)
    ensures ServerShape(HandleAppendReply(s, peer, a, r))
  {
    hide CommitUpTo, BackUp;
    if r.term > s.currentTerm {
      LogOkGrows(s.logs, s.currentTerm, r.term);
    }
  }

  lemma BuildShape(s: Server, peer: nat)
    requires ServerShape(s) && CanBuild(s, peer)
    ensures SentOk(Sent(peer, BuildAppend(s, peer), s.logs))
  {
  }

  lemma ShapeMoves(g: Cluster, g': Cluster, v: nat)
    requires ShapeInv(g) && v < |g.servers| == |g'.servers| && g'.servers == g.servers[v := g'.servers[v]]
    requires ServerShape(g'.servers[v]) && g'.appends == g.appends
    requires forall q :: q in g'.appendReplies ==> q.0 in g.appends
    ensures ShapeInv(g')
  {
  }

  lemma ShapeKept(g: Cluster, step: Step)
    requires ShapeInv(g)
    ensures ShapeInv(Apply(g, step))
  {
    hide ServerShape, SentOk, HandleVote, HandleVoteReply, HandleAppend;
    hide HandleAppendReply, StartCommand, Timeout, Restart, BuildAppend;
    if Enabled(g, step) {
      match step
      case TimeoutStep(v) => SimpleShapes(g.servers[v]); ShapeMoves(g, DoTimeout(g, v), v);
      case VoteStep(v, a) => VoteShape(g.servers[v], a); ShapeMoves(g, DoVote(g, v, a), v);
      case VoteReplyStep(a, peer, r) => VoteReplyMoves(g, a, peer, r);
      case StartStep(v, command) => StartShape(g.servers[v], command); ShapeMoves(g, DoStart(g, v, command), v);
      case SendStep(v, peer) => BuildShape(g.servers[v], peer);
      case AppendStep(sent) => AppendShape(g.servers[sent.to], sent); ShapeMoves(g, DoAppend(g, sent), sent.to);
      case AppendReplyStep(sent, r) =>
        AppendReplyShape(g.servers[sent.args.leader], sent.to, sent.args, r);
        ShapeMoves(g, DoAppendReply(g, sent, r), sent.args.leader);
      case CrashStep(v) => SimpleShapes(g.servers[v]); ShapeMoves(g, DoCrash(g, v), v);
    }
  }

  lemma VoteReplyMoves(g: Cluster, a: VoteRequest, peer: nat, r: VoteReply)
    requires ShapeInv(g) && Enabled(g, VoteReplyStep(a, peer, r))
    ensures ShapeInv(DoVoteReply(g, a, peer, r))
  {
    hide ServerShape, SentOk, HandleVoteReply;
    var c := a.candidate;
    var e := Tally(g.elections[(c, a.term)], peer, Counts(g.servers[c], r));
    VoteReplyShape(g.servers[c], r, e.votes);
    ShapeMoves(g, DoVoteReply(g, a, peer, r), c);
  }

  /** In every run, every log and every append in flight has its shape. */
  lemma {:induction false} RunShape(n: nat, steps: seq<Step>)
    ensures ShapeInv(Run(n, steps))
  {
    if steps != [] {
      var k := |steps| - 1;
      RunShape(n, steps[..k]);
      ShapeKept(Run(n, steps[..k]), steps[k]);
    }
  }
}
