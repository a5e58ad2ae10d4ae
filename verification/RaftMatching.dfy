/**
 Log matching over whole runs with many terms, crashes and restarts (section 5.3
 of "In Search of an Understandable Consensus Algorithm (Extended Version)"):
 two logs with an entry of the same index and term agree up to there.  It holds
 in every sound run, that is, as long as each leader has won its term.
 */
module RaftMatching {
  import opened RaftServer
  import opened RaftCluster
  import opened RaftElection
  import opened RaftLogShape

  ghost predicate Agrees(a: Log, b: Log) {
    forall i :: 0 <= i < |a| && i < |b| && a[i].term == b[i].term ==> a[..i + 1] == b[..i + 1]
  }

  ghost predicate AllAgree(logs: set<Log>) {
    forall a, b :: a in logs && b in logs ==> Agrees(a, b)
  }

  /** Somebody led this term. */
  ghost predicate Owned(led: set<(nat, int)>, t: int) {
    exists v :: (v, t) in led
  }

  /** Every entry was appended by a leader of its term. */
  ghost predicate TermsOwned(led: set<(nat, int)>, h: Log) {
    forall i :: 1 <= i < |h| ==> Owned(led, h[i].term)
  }

  /** `logs` has an entry of term `t` wherever `h` has one. */
  ghost predicate Covers(logs: Log, h: Log, t: int) {
    forall i :: 0 <= i < |h| && h[i].term == t ==> i < |logs| && logs[i].term == t
  }

  ghost predicate HistoryOk(g: Cluster, h: Log) {
    && h != [] && h[0] == SENTINEL && TermsOwned(g.led, h)
    && forall v :: 0 <= v < |g.servers| && g.servers[v].role.Leader? ==>
      Covers(g.servers[v].logs, h, g.servers[v].currentTerm)
  }

  ghost predicate MessageOk(g: Cluster, m: Sent) {
    m.log in g.histories && (m.args.leader, m.args.term) in g.led && m.to != m.args.leader && m.to < |g.servers|
  }

  /** Whoever led a term had won it and will not campaign in it again. */
  ghost predicate LedOk(g: Cluster, k: (nat, int)) {
    && k.0 < |g.servers| && Won(g, k) && 1 <= k.1 <= g.servers[k.0].currentTerm
    && (k.1 == g.servers[k.0].currentTerm ==> !g.servers[k.0].role.Candidate?)
  }

  ghost predicate ServerLog(g: Cluster, v: nat)
    requires v < |g.servers|
  {
    g.servers[v].logs in g.histories && (g.servers[v].role.Leader? ==> (v, g.servers[v].currentTerm) in g.led)
  }

  ghost predicate MatchInv(g: Cluster) {
    && AllAgree(g.histories)
    && (forall v :: 0 <= v < |g.servers| ==> ServerLog(g, v))
    && (forall m :: m in g.appends ==> MessageOk(g, m))
    && (forall k :: k in g.led ==> LedOk(g, k))
    && (forall h :: h in g.histories ==> HistoryOk(g, h))
  }

  /** Everything known of a state reached soundly. */
  ghost predicate SoundState(g: Cluster) {
    ElectionInv(g) && Campaigns(g) && LeadersElected(g) && ShapeInv(g) && MatchInv(g)
  }

  // ----- accepting an append

  /** The receiver ends up with its own log, of which the sender's is a prefix, or
      with the sender's log; in that case it had agreed up to `m` only. */
  lemma MergeAgreed(logs: Log, full: Log, prev: nat) returns (m: nat)
    requires Agrees(logs, full)
    requires prev < |logs| && prev < |full| && logs[prev].term == full[prev].term
    ensures prev < m <= |full| && m <= |logs| && logs[..m] == full[..m]
    ensures var r := Merge(logs, prev, full[prev + 1..]);
      if m == |full| then r == logs
      else r == full && (m == |logs| || logs[m].term != full[m].term)
  {
    m := Merged(logs, full, prev);
    hide Merge;
    assert logs[m - 1].term == full[m - 1].term;
    assert logs[..m] == full[..m];
  }

  lemma AppendLog(s: Server, m: Sent)
    requires SentOk(m) && Agrees(s.logs, m.log)
    ensures var s' := HandleAppend(s, m.args).0; s'.logs == s.logs || s'.logs == m.log
  {
    hide Merge, Agrees;
    var a := m.args;
    if a.prevLogIndex < |s.logs| && s.logs[a.prevLogIndex].term == a.prevLogTerm {
      var k := MergeAgreed(s.logs, m.log, a.prevLogIndex);
    }
  }

  lemma AppendInHistories(g: Cluster, m: Sent)
    requires SoundState(g) && m in g.appends && m.to < |g.servers|
    ensures HandleAppend(g.servers[m.to], m.args).0.logs in g.histories
  {
    var s := g.servers[m.to];
    assert SentOk(m) && MessageOk(g, m) && ServerLog(g, m.to) && Agrees(s.logs, m.log);
    AppendLog(s, m);
  }

  /** A leader never gets an append of its own term from another. */
  lemma NoRivalAppend(g: Cluster, m: Sent)
    requires SoundState(g) && m in g.appends && m.to < |g.servers|
    requires g.servers[m.to].role.Leader?
    ensures m.args.term != g.servers[m.to].currentTerm
  {
    assert MessageOk(g, m);
    assert LedOk(g, (m.args.leader, m.args.term));
    assert ElectedAt(g, m.to);
    if m.args.term == g.servers[m.to].currentTerm {
      OneWinner(g, m.args.leader, m.to, m.args.term);
    }
  }

  // ----- every sound step keeps it

  ghost predicate WinsKept(g: Cluster, g': Cluster) {
    forall k :: Won(g, k) ==> Won(g', k)
  }

  /** One server moves on, with a log held before, and does not become leader. */
  lemma MatchMoves(g: Cluster, g': Cluster, v: nat)
    requires MatchInv(g) && v < |g.servers| == |g'.servers| && g'.servers == g.servers[v := g'.servers[v]]
    requires g'.histories == g.histories && g'.led == g.led && g'.appends == g.appends && WinsKept(g, g')
    requires g'.servers[v].logs in g.histories && g.servers[v].currentTerm <= g'.servers[v].currentTerm
    requires g'.servers[v].role.Leader? ==>
      g.servers[v].role.Leader? && g'.servers[v].currentTerm == g.servers[v].currentTerm
                                            && g'.servers[v].logs == g.servers[v].logs
    requires g'.servers[v].role.Candidate? ==>
      g.servers[v].role.Candidate? || g.servers[v].currentTerm < g'.servers[v].currentTerm
    ensures MatchInv(g')
  {
    forall u | 0 <= u < |g.servers| ensures ServerLog(g', u) {
      assert ServerLog(g, u);
    }
    forall m | m in g'.appends ensures MessageOk(g', m) {
      assert MessageOk(g, m);
    }
    forall k | k in g'.led ensures LedOk(g', k) {
      assert LedOk(g, k);
    }
    forall h: Log | h in g'.histories ensures HistoryOk(g', h) {
      assert HistoryOk(g, h);
    }
  }

  lemma SameHistories(g: Cluster, h: Log)
    requires h in g.histories
    ensures g.histories + {h} == g.histories
  {
  }

  /** A new leader: no log holds an entry of its term yet. */
  lemma FreshTerm(g: Cluster, c: nat, h: Log, i: nat)
    requires ElectionInv(g) && MatchInv(g) && h in g.histories && c < |g.servers|
    requires i < |h| && g.servers[c].role.Candidate? && 1 <= g.servers[c].currentTerm
    requires forall u: nat :: Won(g, (u, g.servers[c].currentTerm)) ==> u == c
    ensures h[i].term != g.servers[c].currentTerm
  {
    var t := g.servers[c].currentTerm;
    assert forall u: nat :: (u, t) in g.led ==> LedOk(g, (u, t));
    assert !Owned(g.led, t);
    assert HistoryOk(g, h);
  }

  lemma NewLeaderHistory(g: Cluster, g': Cluster, c: nat, h: Log)
    requires ElectionInv(g) && MatchInv(g) && h in g.histories && c < |g.servers| == |g'.servers|
    requires g'.servers == g.servers[c := g'.servers[c]] && g.led <= g'.led
    requires g.servers[c].role.Candidate? && 1 <= g.servers[c].currentTerm == g'.servers[c].currentTerm
    requires forall u: nat :: Won(g, (u, g.servers[c].currentTerm)) ==> u == c
    ensures HistoryOk(g', h)
  {
    assert HistoryOk(g, h);
    forall i | 1 <= i < |h| ensures Owned(g'.led, h[i].term) {
      assert Owned(g.led, h[i].term);
      var u :| (u, h[i].term) in g.led;
      assert (u, h[i].term) in g'.led;
    }
    forall i | 0 <= i < |h| ensures h[i].term != g.servers[c].currentTerm {
      FreshTerm(g, c, h, i);
    }
  }

  lemma NewLeader(g: Cluster, g': Cluster, c: nat)
    requires ElectionInv(g) && ElectionInv(g') && MatchInv(g) && LeadersElected(g') && ShapeInv(g)
    requires c < |g.servers| == |g'.servers| && g'.servers == g.servers[c := g'.servers[c]]
    requires g'.histories == g.histories && g'.appends == g.appends && WinsKept(g, g')
    requires g.servers[c].role.Candidate? && g'.servers[c] == BecomeLeader(g.servers[c])
    requires g'.led == g.led + {(c, g.servers[c].currentTerm)}
    ensures MatchInv(g')
  {
    var t := g.servers[c].currentTerm;
    assert ElectedAt(g', c) && ServerShape(g.servers[c]);
    hide ElectionInv, ShapeInv, LeadersElected, HistoryOk, AllAgree;
    forall u: nat | Won(g, (u, t)) ensures u == c {
      OneWinner(g', u, c, t);
    }
    forall u | 0 <= u < |g.servers| ensures ServerLog(g', u) {
      assert ServerLog(g, u);
    }
    forall m | m in g'.appends ensures MessageOk(g', m) {
      assert MessageOk(g, m);
    }
    forall k | k in g'.led ensures LedOk(g', k) {
      assert k in g.led ==> LedOk(g, k);
    }
    forall h: Log | h in g'.histories ensures HistoryOk(g', h) {
      NewLeaderHistory(g, g', c, h);
    }
  }

  /** The leader's new entry has an index nobody uses in its term. */
  lemma ExtendAgrees(logs: Log, e: LogEntry, h: Log)
    requires Agrees(logs, h) && Covers(logs, h, e.term)
    ensures Agrees(logs + [e], h) && Agrees(h, logs + [e])
  {
    var logs' := logs + [e];
    forall i | 0 <= i < |logs'| && i < |h| && logs'[i].term == h[i].term ensures logs'[..i + 1] == h[..i + 1] {
      assert i < |logs|;
      assert logs'[..i + 1] == logs[..i + 1];
    }
  }

  lemma StartAgrees(g: Cluster, v: nat, e: LogEntry)
    requires MatchInv(g) && v < |g.servers| && g.servers[v].role.Leader? && e.term == g.servers[v].currentTerm
    ensures AllAgree(g.histories + {g.servers[v].logs + [e]})
  {
    var logs := g.servers[v].logs;
    assert ServerLog(g, v);
    forall h | h in g.histories ensures Agrees(logs + [e], h) && Agrees(h, logs + [e]) {
      assert HistoryOk(g, h);
      ExtendAgrees(logs, e, h);
    }
  }

  lemma StartLeader(g: Cluster, v: nat, command: Command)
    requires SoundState(g) && Enabled(g, StartStep(v, command)) && g.servers[v].role.Leader?
    ensures MatchInv(DoStart(g, v, command))
  {
    hide HistoryOk, AllAgree, ElectionInv, ShapeInv, LeadersElected, Campaigns, Won;
    var g', s := DoStart(g, v, command), g.servers[v];
    StartAgrees(g, v, LogEntry(command, s.currentTerm));
    forall u | 0 <= u < |g.servers| ensures ServerLog(g', u) {
      assert ServerLog(g, u);
    }
    forall m | m in g'.appends ensures MessageOk(g', m) {
      assert MessageOk(g, m);
    }
    forall k | k in g'.led ensures LedOk(g', k) {
      assert LedOk(g, k);
      SameWins(g, g', k);
    }
    forall h: Log | h in g'.histories ensures HistoryOk(g', h) {
      StartHistory(g, v, command, h);
    }
  }

  lemma SameWins(g: Cluster, g': Cluster, k: (nat, int))
    requires g'.elections == g.elections && |g'.servers| == |g.servers|
    ensures Won(g', k) <==> Won(g, k)
  {
  }

  lemma StartMatch(g: Cluster, v: nat, command: Command)
    requires SoundState(g) && Enabled(g, StartStep(v, command))
    ensures MatchInv(DoStart(g, v, command))
  {
    hide MatchInv, ElectionInv, ShapeInv, LeadersElected, Campaigns;
    if g.servers[v].role.Leader? {
      StartLeader(g, v, command);
    } else {
      LogAt(g, v);
      SameHistories(g, g.servers[v].logs);
      MatchMoves(g, DoStart(g, v, command), v);
    }
  }

  lemma LeaderTerms(g: Cluster, u: nat, v: nat)
    requires ElectionInv(g) && LeadersElected(g) && u < |g.servers| && v < |g.servers|
    requires g.servers[u].role.Leader? && g.servers[v].role.Leader?
    requires g.servers[u].currentTerm == g.servers[v].currentTerm
    ensures u == v
  {
    assert ElectedAt(g, u) && ElectedAt(g, v);
    OneWinner(g, u, v, g.servers[u].currentTerm);
  }

  lemma StartHistory(g: Cluster, v: nat, command: Command, h: Log)
    requires SoundState(g) && Enabled(g, StartStep(v, command)) && g.servers[v].role.Leader?
    requires h in DoStart(g, v, command).histories
    ensures HistoryOk(DoStart(g, v, command), h)
  {
    var g', logs, t := DoStart(g, v, command), g.servers[v].logs, g.servers[v].currentTerm;
    var e := LogEntry(command, t);
    assert ServerLog(g, v) && HistoryOk(g, logs);
    assert h in g.histories ==> HistoryOk(g, h);
    assert Owned(g.led, t);
    OwnedMore(g.led, logs, e);
    hide MatchInv, ElectionInv, ShapeInv, LeadersElected, Campaigns, TermsOwned, Owned, Covers;
    forall u | 0 <= u < |g.servers| && g'.servers[u].role.Leader?
      ensures Covers(g'.servers[u].logs, h, g'.servers[u].currentTerm)
    {
      if u == v {
        CoversMore(logs, e, if h in g.histories then h else logs);
      } else if h !in g.histories {
        if g.servers[u].currentTerm == t {
          LeaderTerms(g, u, v);
        }
        CoversOther(g.servers[u].logs, logs, e, g.servers[u].currentTerm);
      }
    }
  }

  lemma OwnedMore(led: set<(nat, int)>, logs: Log, e: LogEntry)
    requires TermsOwned(led, logs) && Owned(led, e.term)
    ensures TermsOwned(led, logs + [e])
  {
  }

  lemma CoversMore(logs: Log, e: LogEntry, h: Log)
    requires Covers(logs, h, e.term)
    ensures Covers(logs + [e], h, e.term) && (h == logs ==> Covers(logs + [e], h + [e], e.term))
  {
  }

  lemma CoversOther(other: Log, h: Log, e: LogEntry, t: int)
    requires Covers(other, h, t) && e.term != t
    ensures Covers(other, h + [e], t)
  {
  }

  lemma TimeoutMatch(g: Cluster, v: nat)
    requires SoundState(g) && Enabled(g, TimeoutStep(v)) && !g.servers[v].role.Leader?
    ensures MatchInv(DoTimeout(g, v))
  {
    var g' := DoTimeout(g, v);
    forall k | Won(g, k) ensures Won(g', k) {
      assert ElectionOk(g.servers, g.grants, k, g.elections[k]);
    }
    assert ServerLog(g, v);
    MatchMoves(g, g', v);
  }

  lemma VoteCases(s: Server, a: VoteRequest)
    requires s.logs != []
    ensures var s' := HandleVote(s, a).0;
      && s'.logs == s.logs && s.currentTerm <= s'.currentTerm && RoleKept(s, s')
  {
  }

  lemma VoteMatch(g: Cluster, v: nat, a: VoteRequest)
    requires SoundState(g) && Enabled(g, VoteStep(v, a))
    ensures MatchInv(DoVote(g, v, a))
  {
    hide MatchInv, ElectionInv, ShapeInv, LeadersElected, Campaigns, HandleVote;
    LogAt(g, v);
    VoteCases(g.servers[v], a);
    MatchMoves(g, DoVote(g, v, a), v);
  }

  lemma LogAt(g: Cluster, v: nat)
    requires MatchInv(g) && v < |g.servers|
    ensures ServerLog(g, v)
  {
  }

  lemma VoteReplyCases(s: Server, r: VoteReply, votes: int)
    ensures var s' := HandleVoteReply(s, r, votes);
      && s'.logs == s.logs && s.currentTerm <= s'.currentTerm
      && (s'.role.Leader? && !s.role.Leader? ==> s.role.Candidate? && s' == BecomeLeader(s))
      && (s'.role.Leader? && s.role.Leader? ==> s'.currentTerm == s.currentTerm)
      && (s'.role.Candidate? ==> s.role.Candidate?)
  {
  }

  lemma VoteReplyWins(g: Cluster, a: VoteRequest, peer: nat, r: VoteReply)
    requires Enabled(g, VoteReplyStep(a, peer, r))
    ensures WinsKept(g, DoVoteReply(g, a, peer, r))
  {
    hide HandleVoteReply;
  }

  lemma VoteReplyMatch(g: Cluster, a: VoteRequest, peer: nat, r: VoteReply)
    requires SoundState(g) && Enabled(g, VoteReplyStep(a, peer, r))
    requires LeadersElected(DoVoteReply(g, a, peer, r)) && ElectionInv(DoVoteReply(g, a, peer, r))
    ensures MatchInv(DoVoteReply(g, a, peer, r))
  {
    hide MatchInv, ElectionInv, ShapeInv, LeadersElected, Campaigns, HandleVoteReply;
    var g', c := DoVoteReply(g, a, peer, r), a.candidate;
    var votes := g'.elections[(c, a.term)].votes;
    VoteReplyCases(g.servers[c], r, votes);
    VoteReplyWins(g, a, peer, r);
    assert g.servers[c].logs in g.histories by { LogAt(g, c); }
    if g'.servers[c].role.Leader? && !g.servers[c].role.Leader? {
      NewLeader(g, g', c);
    } else {
      assert g.led + {} == g.led;
      MatchMoves(g, g', c);
    }
  }

  lemma SendMatch(g: Cluster, v: nat, peer: nat)
    requires SoundState(g) && Enabled(g, SendStep(v, peer))
    ensures MatchInv(DoSend(g, v, peer))
  {
    var g' := DoSend(g, v, peer);
    assert ServerLog(g, v) && g.servers[v].me == v by { ServerAt(g, v); }
    forall u | 0 <= u < |g.servers| ensures ServerLog(g', u) { assert ServerLog(g, u); }
    forall m | m in g'.appends ensures MessageOk(g', m) { assert m in g.appends ==> MessageOk(g, m); }
    forall k | k in g'.led ensures LedOk(g', k) { assert LedOk(g, k); }
    forall h: Log | h in g'.histories ensures HistoryOk(g', h) { assert HistoryOk(g, h); }
  }

  lemma AppendTerms(s: Server, a: AppendArgs)
    requires 0 <= a.prevLogIndex
    ensures var s' := HandleAppend(s, a).0;
      && s.currentTerm <= s'.currentTerm
      && (s'.role.Leader? ==> s.role.Leader? && a.term <= s.currentTerm == s'.currentTerm)
      && (s'.role.Candidate? ==> s.role.Candidate?)
      && (a.term < s.currentTerm ==> s'.logs == s.logs)
  {
    hide Merge, RunStart;
  }

  lemma AppendMatch(g: Cluster, m: Sent)
    requires SoundState(g) && Enabled(g, AppendStep(m))
    ensures MatchInv(DoAppend(g, m))
  {
    hide ElectionInv, ShapeInv, LeadersElected, Campaigns, HandleAppend;
    var g', v := DoAppend(g, m), m.to;
    assert ServerLog(g, v);
    AppendInHistories(g, m);
    AppendTerms(g.servers[v], m.args);
    SameHistories(g, g'.servers[v].logs);
    if g.servers[v].role.Leader? {
      NoRivalAppend(g, m);
    }
    MatchMoves(g, g', v);
  }

  lemma AppendReplyCases(s: Server, peer: nat, a: AppendArgs, r: AppendReply)
    requires CanHandleReply(s, peer, a, r)
    ensures var s' := HandleAppendReply(s, peer, a, r);
      && s'.logs == s.logs && s.currentTerm <= s'.currentTerm && RoleKept(s, s')
  {
    hide CommitUpTo, BackUp;
  }

  lemma AppendReplyMatch(g: Cluster, m: Sent, r: AppendReply)
    requires SoundState(g) && Enabled(g, AppendReplyStep(m, r))
    ensures MatchInv(DoAppendReply(g, m, r))
  {
    hide MatchInv, ElectionInv, ShapeInv, LeadersElected, Campaigns, HandleAppendReply;
    var v := m.args.leader;
    LogAt(g, v);
    AppendReplyCases(g.servers[v], m.to, m.args, r);
    MatchMoves(g, DoAppendReply(g, m, r), v);
  }

  lemma CrashMatch(g: Cluster, v: nat)
    requires SoundState(g) && Enabled(g, CrashStep(v))
    ensures MatchInv(DoCrash(g, v))
  {
    ServerAt(g, v);
    assert ServerLog(g, v);
    hide MatchInv, ElectionInv, ShapeInv, LeadersElected, Campaigns;
    MatchMoves(g, DoCrash(g, v), v);
  }

  lemma SoundStep(g: Cluster, step: Step)
    requires SoundState(g) && Sound(g, step)
    ensures SoundState(Apply(g, step))
  {
    StepKeeps(g, step);
    ElectedExactly(g, step);
    ShapeKept(g, step);
    hide MatchInv, ElectionInv, ShapeInv, LeadersElected, Campaigns;
    if Enabled(g, step) {
      match step
      case TimeoutStep(v) => TimeoutMatch(g, v);
      case VoteStep(v, a) => VoteMatch(g, v, a);
      case VoteReplyStep(a, peer, r) => VoteReplyMatch(g, a, peer, r);
      case StartStep(v, command) => StartMatch(g, v, command);
      case SendStep(v, peer) => SendMatch(g, v, peer);
      case AppendStep(sent) => AppendMatch(g, sent);
      case AppendReplyStep(sent, r) => AppendReplyMatch(g, sent, r);
      case CrashStep(v) => CrashMatch(g, v);
    }
  }

  lemma InitSound(n: nat)
    ensures SoundState(Init(n))
  {
    InitElection(n);
  }

  lemma {:induction false} RunSound(n: nat, steps: seq<Step>)
    requires SoundRun(n, steps)
    ensures SoundState(Run(n, steps)) && |Run(n, steps).servers| == n
  {
    if steps == [] {
      InitSound(n);
    } else {
      var k := |steps| - 1;
      SoundPrefix(n, steps, k);
      RunSound(n, steps[..k]);
      SoundStep(Run(n, steps[..k]), steps[k]);
      SameSize(Run(n, steps[..k]), steps[k]);
    }
  }

  lemma SoundPrefix(n: nat, steps: seq<Step>, k: nat)
    requires SoundRun(n, steps) && k <= |steps|
    ensures SoundRun(n, steps[..k])
  {
    forall j | 0 <= j < k ensures Sound(Run(n, steps[..k][..j]), steps[..k][j]) {
      assert steps[..k][..j] == steps[..j];
    }
  }

  /** Log matching: in every sound run, two servers whose logs hold an entry of
      the same index and term hold the same entries up to it. */
  lemma LogMatching(n: nat, steps: seq<Step>, a: nat, b: nat, i: nat)
    requires SoundRun(n, steps) && a < n && b < n
    requires var g := Run(n, steps); |g.servers| == n && i < |g.servers[a].logs| && i < |g.servers[b].logs|
                                     && g.servers[a].logs[i].term == g.servers[b].logs[i].term
    ensures var g := Run(n, steps); g.servers[a].logs[..i + 1] == g.servers[b].logs[..i + 1]
  {
    RunSound(n, steps);
    MatchedServers(Run(n, steps), a, b, i);
  }

  lemma MatchedServers(g: Cluster, a: nat, b: nat, i: nat)
    requires MatchInv(g) && a < |g.servers| && b < |g.servers|
    requires i < |g.servers[a].logs| && i < |g.servers[b].logs|
    requires g.servers[a].logs[i].term == g.servers[b].logs[i].term
    ensures g.servers[a].logs[..i + 1] == g.servers[b].logs[..i + 1]
  {
    assert ServerLog(g, a) && ServerLog(g, b);
    hide MatchInv;
  }
}
