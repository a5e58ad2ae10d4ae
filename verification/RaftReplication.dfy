/**
 Replication in a leader's term: what a follower has accepted stays in its log
 and equals the leader's (raft/raft_log_replication.go:58-132, 161-173).  Appends
 may come late, out of order or repeatedly.
 */
module RaftReplication {
  import opened RaftServer
  import opened RaftCluster
  import opened RaftElection
  import opened RaftLogShape
  import opened RaftMatching

  /** Both logs hold the same entries up to index `i`. */
  ghost predicate Same(a: Log, b: Log, i: int) {
    0 <= i < |a| && i < |b| && a[..i + 1] == b[..i + 1]
  }

  ghost predicate Leads(g: Cluster, v: nat, t: int) {
    v < |g.servers| && g.servers[v].role.Leader? && g.servers[v].currentTerm == t
  }

  ghost predicate AckOk(g: Cluster, k: (int, nat)) {
    k.1 < |g.servers| && k.0 <= g.servers[k.1].currentTerm && Owned(g.led, k.0)
  }

  /** Server `f`, seen from the leader `v`. */
  ghost predicate InSync(g: Cluster, v: nat, f: nat)
    requires v < |g.servers| && f < |g.servers|
  {
    var t := g.servers[v].currentTerm;
    var a := Acked(g.acked, t, f);
    && 0 <= a < |g.servers[v].logs|
    && (g.servers[f].currentTerm == t ==> Same(g.servers[f].logs, g.servers[v].logs, a))
  }

  ghost predicate SentPrefix(g: Cluster, m: Sent) {
    Leads(g, m.args.leader, m.args.term) ==> m.log <= g.servers[m.args.leader].logs
  }

  /** A success was recorded; a refusal names a higher term or an earlier index. */
  ghost predicate AnswerOk(g: Cluster, q: (Sent, AppendReply)) {
    var m, r := q.0, q.1;
    if r.success then (m.args.term, m.to) in g.acked && |m.log| - 1 <= g.acked[(m.args.term, m.to)]
    else r.term > m.args.term || 1 <= r.conflictIndex <= m.args.prevLogIndex
  }

  ghost predicate SyncInv(g: Cluster) {
    && (forall k :: k in g.acked ==> AckOk(g, k))
    && (forall v, f :: 0 <= v < |g.servers| && 0 <= f < |g.servers| && f != v && g.servers[v].role.Leader? ==>
      InSync(g, v, f))
    && (forall m :: m in g.appends ==> SentPrefix(g, m))
    && (forall q :: q in g.appendReplies ==> AnswerOk(g, q))
  }

  lemma StartSame(a: Log, b: Log)
    requires a != [] && b != [] && a[0] == b[0]
    ensures Same(a, b, 0)
  {
  }

  lemma NoAckYet(g: Cluster, t: int, f: nat)
    requires SyncInv(g) && f < |g.servers| && g.servers[f].currentTerm < t
    ensures Acked(g.acked, t, f) == 0
  {
    assert (t, f) in g.acked ==> AckOk(g, (t, f));
  }

  lemma Heads(g: Cluster, v: nat)
    requires ShapeInv(g) && v < |g.servers|
    ensures g.servers[v].logs != [] && g.servers[v].logs[0] == SENTINEL
  {
    assert ServerShape(g.servers[v]);
  }

  /** Server `v` moves to a state with the same log; it is no new leader. */
  lemma SyncMoves(g: Cluster, g': Cluster, v: nat)
    requires SyncInv(g) && ShapeInv(g) && v < |g.servers| == |g'.servers| && g'.servers == g.servers[v := g'.servers[v]]
    requires g'.acked == g.acked && g'.led == g.led && g'.appends == g.appends && g'.appendReplies == g.appendReplies
    requires g'.servers[v].logs == g.servers[v].logs && g.servers[v].currentTerm <= g'.servers[v].currentTerm
    requires g'.servers[v].role.Leader? ==>
      g.servers[v].role.Leader? && g'.servers[v].currentTerm == g.servers[v].currentTerm
    ensures SyncInv(g')
  {
    forall k | k in g'.acked ensures AckOk(g', k) {
      assert AckOk(g, k);
    }
    forall m | m in g'.appends ensures SentPrefix(g', m) {
      assert SentPrefix(g, m);
    }
    forall q | q in g'.appendReplies ensures AnswerOk(g', q) {
      assert AnswerOk(g, q);
    }
    forall u, f | 0 <= u < |g.servers| && 0 <= f < |g.servers| && f != u && g'.servers[u].role.Leader?
      ensures InSync(g', u, f)
    {
      assert InSync(g, u, f);
      if g.servers[f].currentTerm < g'.servers[u].currentTerm {
        NoAckYet(g, g'.servers[u].currentTerm, f);
        Heads(g, u);
        Heads(g, f);
        StartSame(g.servers[f].logs, g.servers[u].logs);
      }
    }
  }

  // ----- accepting an append

  /** A late append drops nothing the two logs are known to share. */
  lemma AcceptKeepsShared(logs: Log, leader: Log, full: Log, prev: nat, a: int) returns (logs': Log)
    requires Agrees(logs, full) && full <= leader && Same(logs, leader, a)
    requires prev < |logs| && prev < |full| && logs[prev].term == full[prev].term
    ensures logs' == Merge(logs, prev, full[prev + 1..])
    ensures Same(logs', leader, Max(a, |full| - 1))
  {
    logs' := Merge(logs, prev, full[prev + 1..]);
    var m := MergeAgreed(logs, full, prev);
    hide Merge, Agrees;
    if m == |full| {
      assert logs[..|full|] == full == leader[..|full|];
    } else {
      forall i | 0 <= i <= a ensures logs[i] == leader[i] {
        assert logs[..a + 1][i] == leader[..a + 1][i];
      }
      assert m > a;
      assert full == leader[..|full|];
    }
  }

  /** What an append does to its receiver in the term it was sent in. */
  lemma AppendSync(s: Server, m: Sent, leader: Log, a: int)
    requires SentOk(m) && ServerShape(s) && Agrees(s.logs, m.log) && m.log <= leader && s.currentTerm <= m.args.term
    requires Same(s.logs, leader, a)
    ensures var (s', r) := HandleAppend(s, m.args);
      && s'.currentTerm == m.args.term
      && Same(s'.logs, leader, if r.success then Max(a, |m.log| - 1) else a)
      && (!r.success ==> 1 <= r.conflictIndex <= m.args.prevLogIndex)
  {
    hide Merge, LogOk, Agrees, RunStart, Same;
    var g := m.args;
    if g.prevLogIndex < |s.logs| {
      if s.logs[g.prevLogIndex].term == g.prevLogTerm {
        var l := AcceptKeepsShared(s.logs, leader, m.log, g.prevLogIndex, a);
      } else {
        ScanInBounds(s, m);
      }
    } else {
      assert |s.logs| >= 1 by { ShapeNonempty(s); }
    }
  }

  lemma ShapeNonempty(s: Server)
    requires ServerShape(s)
    ensures |s.logs| >= 1
  {
  }

  /** The answer to any append, whoever sent it. */
  lemma AppendAnswer(s: Server, m: Sent)
    requires SentOk(m) && ServerShape(s)
    ensures var (s', r) := HandleAppend(s, m.args);
      && s.currentTerm <= s'.currentTerm && (m.args.term <= s'.currentTerm)
      && (s'.currentTerm == s.currentTerm || s'.currentTerm == m.args.term)
      && (r.success ==> s'.currentTerm == m.args.term)
      && (!r.success ==> s'.logs == s.logs && (r.term > m.args.term || 1 <= r.conflictIndex <= m.args.prevLogIndex))
      && (m.args.term < s.currentTerm ==> !r.success)
  {
    hide Merge, LogOk, RunStart;
    var g := m.args;
    ShapeNonempty(s);
    if g.prevLogIndex < |s.logs| && s.logs[g.prevLogIndex].term != g.prevLogTerm {
      ScanInBounds(s, m);
    }
  }

  /** The leader that sent an append of the term another server now leads. */
  lemma SenderLeads(g: Cluster, m: Sent, u: nat)
    requires SoundState(g) && m in g.appends && Leads(g, u, m.args.term)
    ensures m.args.leader == u
  {
    assert MessageOk(g, m) && LedOk(g, (m.args.leader, m.args.term)) && ElectedAt(g, u);
    hide SoundState;
    OneWinner(g, m.args.leader, u, m.args.term);
  }

  lemma LeaderUnmoved(g: Cluster, m: Sent, u: nat)
    requires SoundState(g) && Enabled(g, AppendStep(m)) && u < |g.servers| && DoAppend(g, m).servers[u].role.Leader?
    ensures var s, s' := g.servers[u], DoAppend(g, m).servers[u];
      s.role.Leader? && s'.currentTerm == s.currentTerm && s'.logs == s.logs
  {
    hide SoundState, HandleAppend;
    AppendTerms(g.servers[m.to], m.args);
    if u == m.to {
      NoRivalAppend(g, m);
    }
  }

  /** The receiver of an append of the term `u` leads. */
  lemma ReceiverInSync(g: Cluster, m: Sent, u: nat)
    requires SoundState(g) && SyncInv(g) && m in g.appends
    requires m.to < |g.servers| && m.to != u && Leads(g, u, m.args.term)
    requires g.servers[m.to].currentTerm <= m.args.term
    ensures var (s', r) := HandleAppend(g.servers[m.to], m.args);
      var a := Acked(g.acked, m.args.term, m.to);
      Same(s'.logs, g.servers[u].logs, if r.success then Max(a, |m.log| - 1) else a)
  {
    var v, t := m.to, m.args.term;
    assert Agrees(g.servers[v].logs, m.log) by { assert MessageOk(g, m) && ServerLog(g, v); }
    assert SentOk(m) && ServerShape(g.servers[v]) && SentPrefix(g, m) && InSync(g, u, v);
    SenderLeads(g, m, u);
    hide SoundState, HandleAppend;
    if g.servers[v].currentTerm < t {
      NoAckYet(g, t, v);
      assert Same(g.servers[v].logs, g.servers[u].logs, 0) by { HeadsSame(g, v, u); }
    }
    hide SyncInv, Same, Agrees, ServerShape, SentOk;
    AppendSync(g.servers[v], m, g.servers[u].logs, Acked(g.acked, t, v));
  }

  lemma HeadsSame(g: Cluster, u: nat, v: nat)
    requires SoundState(g) && u < |g.servers| && v < |g.servers|
    ensures Same(g.servers[u].logs, g.servers[v].logs, 0)
  {
    Heads(g, u);
    Heads(g, v);
    StartSame(g.servers[u].logs, g.servers[v].logs);
  }

  lemma AppendInSync(g: Cluster, m: Sent, u: nat, f: nat)
    requires SoundState(g) && SyncInv(g) && Enabled(g, AppendStep(m))
    requires u < |g.servers| && f < |g.servers| && f != u && DoAppend(g, m).servers[u].role.Leader?
    ensures InSync(DoAppend(g, m), u, f)
  {
    hide SoundState, SyncInv, HandleAppend, SentOk, ServerShape;
    LeaderUnmoved(g, m, u);
    var v, t := m.to, g.servers[u].currentTerm;
    SyncAt(g, u, f);
    MessageFacts(g, m);
    AppendAnswer(g.servers[v], m);
    if f == v && m.args.term == t && g.servers[v].currentTerm <= t {
      ReceiverInSync(g, m, u);
    }
  }

  lemma SyncAt(g: Cluster, u: nat, f: nat)
    requires SyncInv(g) && u < |g.servers| && f < |g.servers| && f != u && g.servers[u].role.Leader?
    ensures InSync(g, u, f)
  {
  }

  lemma MessageFacts(g: Cluster, m: Sent)
    requires SoundState(g) && m in g.appends && m.to < |g.servers|
    ensures SentOk(m) && MessageOk(g, m) && ServerShape(g.servers[m.to])
    ensures m.args.prevLogIndex + |m.args.entries| == |m.log| - 1
  {
    assert SentOk(m);
  }

  lemma AppendKeepsSync(g: Cluster, m: Sent)
    requires SoundState(g) && SyncInv(g) && Enabled(g, AppendStep(m))
    ensures SyncInv(DoAppend(g, m))
  {
    hide HandleAppend, SoundState, SentOk, ServerShape, InSync;
    var g', v := DoAppend(g, m), m.to;
    MessageFacts(g, m);
    AppendAnswer(g.servers[v], m);
    forall k | k in g'.acked ensures AckOk(g', k) {
      assert k in g.acked ==> AckOk(g, k);
      assert Owned(g.led, m.args.term);
    }
    forall u, f | 0 <= u < |g.servers| && 0 <= f < |g.servers| && f != u && g'.servers[u].role.Leader?
      ensures InSync(g', u, f)
    {
      AppendInSync(g, m, u, f);
    }
    forall p | p in g'.appends ensures SentPrefix(g', p) {
      assert SentPrefix(g, p);
      if Leads(g', p.args.leader, p.args.term) {
        LeaderUnmoved(g, m, p.args.leader);
      }
    }
    forall q | q in g'.appendReplies ensures AnswerOk(g', q) {
      assert q in g.appendReplies ==> AnswerOk(g, q);
    }
  }

  // ----- the other steps

  lemma StartKeepsSync(g: Cluster, v: nat, command: Command)
    requires SoundState(g) && SyncInv(g) && Enabled(g, StartStep(v, command))
    ensures SyncInv(DoStart(g, v, command))
  {
    hide SoundState;
    var g' := DoStart(g, v, command);
    forall k | k in g'.acked ensures AckOk(g', k) {
      assert AckOk(g, k);
    }
    forall u, f | 0 <= u < |g.servers| && 0 <= f < |g.servers| && f != u && g'.servers[u].role.Leader?
      ensures InSync(g', u, f)
    {
      assert InSync(g, u, f);
      StartInSync(g, v, command, u, f);
    }
    forall m | m in g'.appends ensures SentPrefix(g', m) {
      assert SentPrefix(g, m);
    }
    forall q | q in g'.appendReplies ensures AnswerOk(g', q) {
      assert AnswerOk(g, q);
    }
  }

  lemma StartInSync(g: Cluster, v: nat, command: Command, u: nat, f: nat)
    requires SoundState(g) && Enabled(g, StartStep(v, command))
    requires u < |g.servers| && f < |g.servers| && f != u && g.servers[u].role.Leader? && InSync(g, u, f)
    ensures InSync(DoStart(g, v, command), u, f)
  {
    hide SoundState;
    var s := g.servers[v];
    if s.role.Leader? && f == v && s.currentTerm == g.servers[u].currentTerm {
      assert SoundState(g);
      OneLeader(g, u, v);
    }
    var a := Acked(g.acked, g.servers[u].currentTerm, f);
    var e := LogEntry(command, s.currentTerm);
    if g.servers[f].currentTerm == g.servers[u].currentTerm && s.role.Leader? && u == v {
      assert (s.logs + [e])[..a + 1] == s.logs[..a + 1];
    }
  }

  lemma OneLeader(g: Cluster, u: nat, v: nat)
    requires SoundState(g) && u < |g.servers| && v < |g.servers|
    requires g.servers[u].role.Leader? && g.servers[v].role.Leader?
    requires g.servers[u].currentTerm == g.servers[v].currentTerm
    ensures u == v
  {
    LeaderTerms(g, u, v);
  }

  lemma SendKeepsSync(g: Cluster, v: nat, peer: nat)
    requires SoundState(g) && SyncInv(g) && Enabled(g, SendStep(v, peer))
    ensures SyncInv(DoSend(g, v, peer))
  {
    hide SoundState;
    var g' := DoSend(g, v, peer);
    SelfNamed(g, v);
    forall k | k in g'.acked ensures AckOk(g', k) { assert AckOk(g, k); }
    forall u, f | 0 <= u < |g.servers| && 0 <= f < |g.servers| && f != u && g'.servers[u].role.Leader?
      ensures InSync(g', u, f)
    {
      assert InSync(g, u, f);
    }
    forall m | m in g'.appends ensures SentPrefix(g', m) { assert m in g.appends ==> SentPrefix(g, m); }
    forall q | q in g'.appendReplies ensures AnswerOk(g', q) { assert AnswerOk(g, q); }
  }

  lemma NewLeaderSync(g: Cluster, g': Cluster, c: nat)
    requires SyncInv(g) && ShapeInv(g) && c < |g.servers| && !Owned(g.led, g.servers[c].currentTerm)
    requires forall m :: m in g.appends ==> (m.args.leader, m.args.term) in g.led
    requires c < |g.servers| == |g'.servers| && g'.servers == g.servers[c := g'.servers[c]]
    requires g'.acked == g.acked && g'.appends == g.appends && g'.appendReplies == g.appendReplies && g.led <= g'.led
    requires g.servers[c].role.Candidate? && g'.servers[c] == BecomeLeader(g.servers[c])
    ensures SyncInv(g')
  {
    hide InSync;
    var t := g.servers[c].currentTerm;
    forall k | k in g'.acked ensures AckOk(g', k) {
      assert AckOk(g, k);
      var u :| (u, k.0) in g.led;
      assert (u, k.0) in g'.led;
    }
    forall m | m in g'.appends ensures SentPrefix(g', m) {
      assert SentPrefix(g, m);
      assert (m.args.leader, m.args.term) in g.led;
    }
    forall q | q in g'.appendReplies ensures AnswerOk(g', q) { assert AnswerOk(g, q); }
    forall u, f | 0 <= u < |g.servers| && 0 <= f < |g.servers| && f != u && g'.servers[u].role.Leader?
      ensures InSync(g', u, f)
    {
      if u == c {
        NoAckUnled(g, t, f);
        Heads(g, f);
        Heads(g, c);
        FirstInSync(g', c, f);
      } else {
        assert InSync(g, u, f);
        SameInSync(g, g', u, f);
      }
    }
  }

  lemma NoAckUnled(g: Cluster, t: int, f: nat)
    requires SyncInv(g) && !Owned(g.led, t)
    ensures (t, f) !in g.acked
  {
    assert forall k :: k in g.acked ==> AckOk(g, k);
  }

  lemma SelfNamed(g: Cluster, v: nat)
    requires SoundState(g) && v < |g.servers|
    ensures g.servers[v].me == v
  {
    ServerAt(g, v);
  }

  lemma SendersLed(g: Cluster)
    requires SoundState(g)
    ensures forall m :: m in g.appends ==> (m.args.leader, m.args.term) in g.led
  {
    forall m | m in g.appends ensures (m.args.leader, m.args.term) in g.led {
      assert MessageOk(g, m);
    }
  }

  lemma FirstInSync(g: Cluster, c: nat, f: nat)
    requires c < |g.servers| && f < |g.servers| && (g.servers[c].currentTerm, f) !in g.acked
    requires g.servers[c].logs != [] && g.servers[f].logs != [] && g.servers[c].logs[0] == g.servers[f].logs[0]
    ensures InSync(g, c, f)
  {
    StartSame(g.servers[f].logs, g.servers[c].logs);
  }

  lemma SameInSync(g: Cluster, g': Cluster, u: nat, f: nat)
    requires |g'.servers| == |g.servers| && u < |g.servers| && f < |g.servers| && InSync(g, u, f) && g'.acked == g.acked
    requires g'.servers[u].currentTerm == g.servers[u].currentTerm && g'.servers[u].logs == g.servers[u].logs
    requires g'.servers[f].currentTerm == g.servers[f].currentTerm && g'.servers[f].logs == g.servers[f].logs
    ensures InSync(g', u, f)
  {
  }

  lemma TermNotLed(g: Cluster, g': Cluster, c: nat)
    requires SoundState(g) && SoundState(g') && c < |g.servers| == |g'.servers| && g.led <= g'.led
    requires g.servers[c].role.Candidate? && Leads(g', c, g.servers[c].currentTerm)
    ensures !Owned(g.led, g.servers[c].currentTerm)
  {
    var t := g.servers[c].currentTerm;
    forall u: nat | (u, t) in g.led ensures u == c {
      assert LedOk(g', (u, t)) && ElectedAt(g', c);
      OneWinner(g', u, c, t);
    }
    assert (c, t) in g.led ==> LedOk(g, (c, t));
  }

  lemma SyncStep(g: Cluster, step: Step)
    requires SoundState(g) && Sound(g, step) && SyncInv(g)
    ensures SyncInv(Apply(g, step)) && SoundState(Apply(g, step))
  {
    hide SyncInv, SoundState, Sound;
    SoundStep(g, step);
    if Enabled(g, step) {
      match step
      case TimeoutStep(v) => TimeoutSync(g, v);
      case VoteStep(v, a) => VoteSync(g, v, a);
      case VoteReplyStep(a, peer, r) => VoteReplySync(g, a, peer, r);
      case StartStep(v, command) => StartKeepsSync(g, v, command);
      case SendStep(v, peer) => SendKeepsSync(g, v, peer);
      case AppendStep(sent) => AppendKeepsSync(g, sent);
      case AppendReplyStep(sent, r) => AppendReplySync(g, sent, r);
      case CrashStep(v) => CrashSync(g, v);
    }
  }

  lemma TimeoutSync(g: Cluster, v: nat)
    requires SoundState(g) && SyncInv(g) && Sound(g, TimeoutStep(v)) && Enabled(g, TimeoutStep(v))
    ensures SyncInv(DoTimeout(g, v))
  {
    hide SyncInv, ShapeInv, ElectionInv, MatchInv, Campaigns, LeadersElected;
    SyncMoves(g, DoTimeout(g, v), v);
  }

  lemma VoteSync(g: Cluster, v: nat, a: VoteRequest)
    requires SoundState(g) && SyncInv(g) && Enabled(g, VoteStep(v, a))
    ensures SyncInv(DoVote(g, v, a))
  {
    hide HandleVote, SyncInv, ShapeInv, ElectionInv, MatchInv, Campaigns, LeadersElected;
    VoteCases(g.servers[v], a);
    SyncMoves(g, DoVote(g, v, a), v);
  }

  lemma VoteReplySync(g: Cluster, a: VoteRequest, peer: nat, r: VoteReply)
    requires SoundState(g) && SyncInv(g) && Enabled(g, VoteReplyStep(a, peer, r))
    requires SoundState(DoVoteReply(g, a, peer, r))
    ensures SyncInv(DoVoteReply(g, a, peer, r))
  {
    hide HandleVoteReply, SyncInv, ShapeInv, ElectionInv, MatchInv, Campaigns, LeadersElected;
    var g', c := DoVoteReply(g, a, peer, r), a.candidate;
    VoteReplyCases(g.servers[c], r, g'.elections[(c, a.term)].votes);
    if g'.servers[c].role.Leader? && !g.servers[c].role.Leader? {
      TermNotLed(g, g', c);
      SendersLed(g);
      NewLeaderSync(g, g', c);
    } else {
      assert g.led + {} == g.led;
      SyncMoves(g, g', c);
    }
  }

  lemma AppendReplySync(g: Cluster, m: Sent, r: AppendReply)
    requires SoundState(g) && SyncInv(g) && Enabled(g, AppendReplyStep(m, r))
    ensures SyncInv(DoAppendReply(g, m, r))
  {
    hide HandleAppendReply, SyncInv, ShapeInv, ElectionInv, MatchInv, Campaigns, LeadersElected;
    AppendReplyCases(g.servers[m.args.leader], m.to, m.args, r);
    SyncMoves(g, DoAppendReply(g, m, r), m.args.leader);
  }

  lemma CrashSync(g: Cluster, v: nat)
    requires SoundState(g) && SyncInv(g) && Enabled(g, CrashStep(v))
    ensures SyncInv(DoCrash(g, v))
  {
    ServerAt(g, v);
    hide SyncInv, ShapeInv, ElectionInv, MatchInv, Campaigns, LeadersElected;
    SyncMoves(g, DoCrash(g, v), v);
  }

  lemma SameShorter(a: Log, b: Log, i: int, j: int)
    requires Same(a, b, j) && 0 <= i <= j
    ensures Same(a, b, i)
  {
    assert a[..i + 1] == a[..j + 1][..i + 1];
    assert b[..i + 1] == b[..j + 1][..i + 1];
  }

  lemma {:induction false} RunSync(n: nat, steps: seq<Step>)
    requires SoundRun(n, steps)
    ensures SyncInv(Run(n, steps)) && SoundState(Run(n, steps)) && |Run(n, steps).servers| == n
  {
    RunSound(n, steps);
    if steps != [] {
      var k := |steps| - 1;
      SoundPrefix(n, steps, k);
      RunSync(n, steps[..k]);
      SyncStep(Run(n, steps[..k]), steps[k]);
    }
  }

  /** In every sound run: while `v` leads term `t`, what a server in that term has
      accepted equals the leader's log. */
  lemma AcceptedPrefix(n: nat, steps: seq<Step>, v: nat, f: nat)
    requires SoundRun(n, steps) && v < n && f < n && f != v
    requires var g := Run(n, steps);
      |g.servers| == n && g.servers[v].role.Leader? && g.servers[f].currentTerm == g.servers[v].currentTerm
    ensures var g := Run(n, steps);
      Same(g.servers[f].logs, g.servers[v].logs, Acked(g.acked, g.servers[v].currentTerm, f))
  {
    RunSync(n, steps);
    SyncAt(Run(n, steps), v, f);
  }

  lemma AcceptedGrows(g: Cluster, step: Step, t: int, f: nat)
    ensures Acked(g.acked, t, f) <= Acked(Apply(g, step).acked, t, f)
  {
    hide HandleVote, HandleVoteReply, HandleAppend, HandleAppendReply, StartCommand, Timeout, Restart;
  }

  lemma {:induction false} AcceptedGrowsFrom(n: nat, steps: seq<Step>, j: nat, t: int, f: nat)
    requires j <= |steps|
    ensures Acked(Run(n, steps[..j]).acked, t, f) <= Acked(Run(n, steps).acked, t, f)
  {
    if j == |steps| {
      assert steps[..j] == steps;
    } else {
      var k := |steps| - 1;
      AcceptedGrowsFrom(n, steps[..k], j, t, f);
      assert steps[..k][..j] == steps[..j];
      AcceptedGrows(Run(n, steps[..k]), steps[k], t, f);
    }
  }

  /** Whatever a server had accepted in a term by some point of a sound run, it shares
      with the leader of that term at every later point, as long as it is in the term. */
  lemma AcceptedStays(n: nat, steps: seq<Step>, j: nat, v: nat, f: nat)
    requires SoundRun(n, steps) && j <= |steps| && v < n && f < n && f != v
    requires var g := Run(n, steps);
      |g.servers| == n && g.servers[v].role.Leader? && g.servers[f].currentTerm == g.servers[v].currentTerm
    ensures var g := Run(n, steps);
      Same(g.servers[f].logs, g.servers[v].logs, Acked(Run(n, steps[..j]).acked, g.servers[v].currentTerm, f))
  {
    AcceptedPrefix(n, steps, v, f);
    var g, t := Run(n, steps), Run(n, steps).servers[v].currentTerm;
    AcceptedGrowsFrom(n, steps, j, t, f);
    AcceptedGrowsFrom(n, steps[..j], 0, t, f);
    assert steps[..j][..0] == [];
    SameShorter(g.servers[f].logs, g.servers[v].logs, Acked(Run(n, steps[..j]).acked, t, f), Acked(g.acked, t, f));
  }

  /** An append, however late, never shrinks what its receiver, in the term or before
      it, shares with the leader, and once accepted extends it to the append's last
      index. */
  lemma AppendExtends(n: nat, steps: seq<Step>, m: Sent, v: nat)
    requires SoundRun(n, steps)
    requires var g := Run(n, steps);
      Enabled(g, AppendStep(m)) && Leads(g, v, m.args.term) && g.servers[m.to].currentTerm <= m.args.term
    ensures var g := Run(n, steps);
      var g', t, f := DoAppend(g, m), m.args.term, m.to;
      var a, a' := Acked(g.acked, t, f), Acked(g'.acked, t, f);
      && Same(g'.servers[f].logs, g.servers[f].logs, a) && Same(g'.servers[f].logs, g.servers[v].logs, a')
      && a' == if HandleAppend(g.servers[f], m.args).1.success
               then Max(a, m.args.prevLogIndex + |m.args.entries|) else a
  {
    hide Run, SoundState, HandleAppend, SyncInv;
    RunSync(n, steps);
    var g, f := Run(n, steps), m.to;
    AppendExtendsIn(g, m, v);
  }

  lemma AppendExtendsIn(g: Cluster, m: Sent, v: nat)
    requires SoundState(g) && SyncInv(g) && Enabled(g, AppendStep(m)) && Leads(g, v, m.args.term)
    requires g.servers[m.to].currentTerm <= m.args.term
    ensures var g', t, f := DoAppend(g, m), m.args.term, m.to;
      var a, a' := Acked(g.acked, t, f), Acked(g'.acked, t, f);
      && Same(g'.servers[f].logs, g.servers[f].logs, a) && Same(g'.servers[f].logs, g.servers[v].logs, a')
      && a' == if HandleAppend(g.servers[f], m.args).1.success
               then Max(a, m.args.prevLogIndex + |m.args.entries|) else a
  {
    hide SoundState, HandleAppend, SyncInv;
    MessageFacts(g, m);
    SenderLeads(g, m, v);
    ReceiverInSync(g, m, v);
    SyncAt(g, v, m.to);
    var f := m.to;
    if g.servers[f].currentTerm < m.args.term {
      NoAckYet(g, m.args.term, f);
      HeadsSame(g, f, v);
    }
    var a, a' := Acked(g.acked, m.args.term, f), Acked(DoAppend(g, m).acked, m.args.term, f);
    SameTransitive(DoAppend(g, m).servers[f].logs, g.servers[v].logs, g.servers[f].logs, a, a');
  }

  lemma SameTransitive(x: Log, y: Log, z: Log, a: int, a': int)
    requires Same(x, y, a') && Same(z, y, a) && a <= a'
    ensures Same(x, z, a)
  {
    assert x[..a + 1] == x[..a' + 1][..a + 1];
    assert y[..a + 1] == y[..a' + 1][..a + 1];
  }
}
