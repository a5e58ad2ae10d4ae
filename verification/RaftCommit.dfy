/**
 What a leader commits: the index arrays it keeps per server, and the majority
 behind every advance of its commit index
 (raft/raft_log_replication.go:161-221, raft/raft.go:110-115).
 */
module RaftCommit {
  import opened Common
  import opened RaftServer
  import opened RaftCluster
  import opened RaftElection
  import opened RaftLogShape
  import opened RaftMatching
  import opened RaftReplication

  ghost predicate IndexOk(s: Server, acked: map<(int, nat), int>, p: nat)
    requires p < |s.nextIndex| && p < |s.matchIndex|
  {
    && 1 <= s.nextIndex[p] <= |s.logs| && 0 <= s.matchIndex[p] < |s.logs|
    && (p != s.me ==> s.matchIndex[p] <= Acked(acked, s.currentTerm, p))
  }

  ghost predicate IndicesOk(s: Server, acked: map<(int, nat), int>, n: nat) {
    s.role.Leader? ==> n == |s.nextIndex| == |s.matchIndex| && forall p :: 0 <= p < n ==> IndexOk(s, acked, p)
  }

  ghost predicate IndexInv(g: Cluster) {
    forall v :: 0 <= v < |g.servers| ==> IndicesOk(g.servers[v], g.acked, |g.servers|)
  }

  /** Acknowledgements only grow. */
  ghost predicate AcksGrow(a: map<(int, nat), int>, b: map<(int, nat), int>) {
    forall t, p :: Acked(a, t, p) <= Acked(b, t, p)
  }

  ghost predicate SameIndices(s: Server, s': Server) {
    s'.role.Leader? ==>
      s.role.Leader? && s' == s.(saved := s'.saved, commitIndex := s'.commitIndex, votedFor := s'.votedFor)
  }

  lemma IndexMoves(g: Cluster, g': Cluster, v: nat)
    requires IndexInv(g) && v < |g.servers| == |g'.servers| && g'.servers == g.servers[v := g'.servers[v]]
    requires AcksGrow(g.acked, g'.acked)
    requires SameIndices(g.servers[v], g'.servers[v]) || IndicesOk(g'.servers[v], g'.acked, |g.servers|)
    ensures IndexInv(g')
  {
    forall u | 0 <= u < |g.servers| ensures IndicesOk(g'.servers[u], g'.acked, |g.servers|) {
      assert IndicesOk(g.servers[u], g.acked, |g.servers|);
      if g'.servers[u].role.Leader? && (u != v || SameIndices(g.servers[v], g'.servers[v])) {
        forall p | 0 <= p < |g.servers| ensures IndexOk(g'.servers[u], g'.acked, p) {
          assert IndexOk(g.servers[u], g.acked, p);
        }
      }
    }
  }

  lemma AppendIndices(s: Server, a: AppendArgs)
    requires 0 <= a.prevLogIndex
    ensures var s' := HandleAppend(s, a).0;
      && s'.me == s.me && s'.nextIndex == s.nextIndex && s'.matchIndex == s.matchIndex
  {
    hide Merge, RunStart;
  }

  lemma AppendKeepsIndices(g: Cluster, m: Sent)
    requires SoundState(g) && IndexInv(g) && Enabled(g, AppendStep(m))
    ensures IndexInv(DoAppend(g, m))
  {
    hide SoundState, HandleAppend, IndexInv, IndicesOk;
    var g', v := DoAppend(g, m), m.to;
    AppendIndices(g.servers[v], m.args);
    if g'.servers[v].role.Leader? {
      LeaderUnmoved(g, m, v);
    }
    IndexMoves(g, g', v);
  }

  lemma StartIndices(s: Server, acked: map<(int, nat), int>, n: nat, command: Command)
    requires IndicesOk(s, acked, n) && s.me < |s.nextIndex| == |s.matchIndex|
    ensures IndicesOk(StartCommand(s, command), acked, n)
  {
    var s' := StartCommand(s, command);
    if s.role.Leader? {
      forall p | 0 <= p < n ensures IndexOk(s', acked, p) {
        assert IndexOk(s, acked, p);
      }
    }
  }

  lemma LeaderIndices(s: Server, acked: map<(int, nat), int>, n: nat)
    requires !s.role.Leader? && n == |s.nextIndex| == |s.matchIndex| && s.logs != []
    requires forall p :: 0 <= p < n && p != s.me ==> 0 <= Acked(acked, s.currentTerm, p)
    ensures IndicesOk(BecomeLeader(s), acked, n)
  {
  }

  lemma {:induction false} AfterTermBounds(logs: Log, t: int, i: int, other: int)
    requires i <= |logs|
    ensures var k := AfterTerm(logs, t, i, other); k == other || (1 <= k <= i && logs[k - 1].term == t)
    decreases i
  {
    if i >= 1 && logs[i - 1].term != t {
      AfterTermBounds(logs, t, i - 1, other);
    }
  }

  /** The term occurs in the log before index `prev`. */
  ghost predicate TermBelow(logs: Log, t: int, prev: int) {
    exists i :: 0 <= i < prev && i < |logs| && logs[i].term == t
  }

  /** The reply leaves the next index of its sender inside the log, and the search for
      its conflicting term, if any, stays inside too. */
  ghost predicate Sensible(s: Server, a: AppendArgs, r: AppendReply) {
    if r.success then 0 <= a.prevLogIndex + |a.entries| < |s.logs|
    else if r.conflictTerm == -1 then 1 <= r.conflictIndex <= |s.logs|
    else
      && a.prevLogIndex <= |s.logs|
      && (1 <= r.conflictIndex <= |s.logs| || TermBelow(s.logs, r.conflictTerm, a.prevLogIndex))
  }

  /** The search finds the index after the last entry of the term before `i`. */
  lemma {:induction false} AfterTermExactly(logs: Log, t: int, i: int, other: int)
    requires i <= |logs|
    ensures !TermBelow(logs, t, i) ==> AfterTerm(logs, t, i, other) == other
    ensures TermBelow(logs, t, i) ==>
      var k := AfterTerm(logs, t, i, other);
      1 <= k <= i && logs[k - 1].term == t && forall j :: k <= j < i ==> logs[j].term != t
    decreases i
  {
    if i >= 1 && logs[i - 1].term != t {
      AfterTermExactly(logs, t, i - 1, other);
      if j :| 0 <= j < i && j < |logs| && logs[j].term == t {
        assert j < i - 1;
      }
    }
  }

  /** A leader, whatever term the reply is of, survives handling it and can go on
      building appends for its sender exactly if the reply is sensible. */
  lemma BuildsExactly(s: Server, peer: nat, a: AppendArgs, r: AppendReply)
    requires s.role.Leader? && peer < |s.nextIndex| == |s.matchIndex| && (r.success || r.term <= s.currentTerm)
    ensures CanHandleReply(s, peer, a, r) && CanBuild(HandleAppendReply(s, peer, a, r), peer) <==> Sensible(s, a, r)
    ensures CanHandleReply(s, peer, a, r) ==>
      forall q: nat :: q != peer ==> (CanBuild(HandleAppendReply(s, peer, a, r), q) <==> CanBuild(s, q))
  {
    hide CommitUpTo, AfterTerm;
    if Scans(s, r) && a.prevLogIndex <= |s.logs| {
      AfterTermExactly(s.logs, r.conflictTerm, a.prevLogIndex, r.conflictIndex);
    }
  }

  /** A reply that tells leader `s` nothing but what holds in its own term: it leaves
      the next index inside the log, and a success was recorded in that term. */
  ghost predicate Honest(s: Server, acked: map<(int, nat), int>, peer: nat, a: AppendArgs, r: AppendReply) {
    && (r.success || r.term <= s.currentTerm ==> Sensible(s, a, r))
    && (r.success && peer != s.me ==> a.prevLogIndex + |a.entries| <= Acked(acked, s.currentTerm, peer))
  }

  ghost predicate HonestStep(g: Cluster, step: Step) {
    step.AppendReplyStep? && Enabled(g, step) && g.servers[step.sent.args.leader].role.Leader? ==>
      Honest(g.servers[step.sent.args.leader], g.acked, step.sent.to, step.sent.args, step.appendReply)
  }

  ghost predicate HonestRun(n: nat, steps: seq<Step>) {
    forall k :: 0 <= k < |steps| ==> HonestStep(Run(n, steps[..k]), steps[k])
  }

  lemma ReplyExactly(s: Server, acked: map<(int, nat), int>, n: nat, peer: nat, a: AppendArgs, r: AppendReply)
    requires IndicesOk(s, acked, n) && s.role.Leader? && CanHandleReply(s, peer, a, r)
    ensures IndicesOk(HandleAppendReply(s, peer, a, r), acked, n) <==> Honest(s, acked, peer, a, r)
  {
    hide CommitUpTo, BackUp, Sensible;
    var s' := HandleAppendReply(s, peer, a, r);
    assert IndexOk(s, acked, peer);
    if s'.role.Leader? {
      BuildsExactly(s, peer, a, r);
      SensibleSuccess(s, a, r);
      forall p | 0 <= p < n && p != peer ensures IndexOk(s', acked, p) {
        assert IndexOk(s, acked, p);
      }
      assert IndicesOk(s', acked, n) ==> IndexOk(s', acked, peer);
    }
  }

  lemma SensibleSuccess(s: Server, a: AppendArgs, r: AppendReply)
    ensures r.success ==> (Sensible(s, a, r) <==> 0 <= a.prevLogIndex + |a.entries| < |s.logs|)
  {
  }

  lemma ReplyKeepsExactly(g: Cluster, m: Sent, r: AppendReply)
    requires IndexInv(g) && Enabled(g, AppendReplyStep(m, r))
    ensures IndexInv(DoAppendReply(g, m, r)) <==> HonestStep(g, AppendReplyStep(m, r))
  {
    var g', v := DoAppendReply(g, m, r), m.args.leader;
    IndicesAt(g, v);
    hide IndexInv, IndicesOk, HandleAppendReply, Honest;
    if g.servers[v].role.Leader? {
      ReplyExactly(g.servers[v], g.acked, |g.servers|, m.to, m.args, r);
      if Honest(g.servers[v], g.acked, m.to, m.args, r) {
        IndexMoves(g, g', v);
      } else if IndexInv(g') {
        IndicesAt(g', v);
      }
    } else {
      NeverPromoted(g.servers[v], m.to, m.args, r);
      IndexMoves(g, g', v);
    }
  }

  lemma NeverPromoted(s: Server, peer: nat, a: AppendArgs, r: AppendReply)
    requires CanHandleReply(s, peer, a, r) && !s.role.Leader?
    ensures !HandleAppendReply(s, peer, a, r).role.Leader?
  {
    hide CommitUpTo, BackUp;
  }

  // ----- replies handled in their term are honest

  /** Replies are handled while their sender still leads the term they answer. */
  ghost predicate InTerm(g: Cluster, step: Step) {
    step.AppendReplyStep? && Enabled(g, step) ==> Leads(g, step.sent.args.leader, step.sent.args.term)
  }

  ghost predicate InTermRun(n: nat, steps: seq<Step>) {
    forall k :: 0 <= k < |steps| ==> InTerm(Run(n, steps[..k]), steps[k])
  }

  lemma InTermHonest(g: Cluster, step: Step)
    requires SoundState(g) && SyncInv(g) && InTerm(g, step)
    ensures HonestStep(g, step)
  {
    if step.AppendReplyStep? && Enabled(g, step) {
      hide SoundState, SyncInv;
      ReplyFacts(g, step.sent, step.appendReply);
    }
  }

  lemma ReplyFacts(g: Cluster, m: Sent, r: AppendReply)
    requires SoundState(g) && SyncInv(g) && (m, r) in g.appendReplies && Leads(g, m.args.leader, m.args.term)
    ensures m.log <= g.servers[m.args.leader].logs && SentOk(m)
    ensures m.to != m.args.leader && m.to < |g.servers| && AnswerOk(g, (m, r))
    ensures g.servers[m.args.leader].me == m.args.leader && m.to < |g.servers[m.args.leader].nextIndex|
  {
    assert m in g.appends;
    assert SentPrefix(g, m) && MessageOk(g, m) && SentOk(m);
    ServerAt(g, m.args.leader);
  }

  /** In every sound run, a reply whose sender still leads the term it answers can be
      handled: the search for a conflicting term stays inside the log. */
  lemma InTermHandled(n: nat, steps: seq<Step>, m: Sent, r: AppendReply)
    requires SoundRun(n, steps) && (m, r) in Run(n, steps).appendReplies
    requires Leads(Run(n, steps), m.args.leader, m.args.term)
    ensures Enabled(Run(n, steps), AppendReplyStep(m, r))
  {
    hide Run, SoundState, SyncInv, Enabled;
    RunSync(n, steps);
    InTermHandledIn(Run(n, steps), m, r);
  }

  lemma InTermHandledIn(g: Cluster, m: Sent, r: AppendReply)
    requires SoundState(g) && SyncInv(g) && (m, r) in g.appendReplies && Leads(g, m.args.leader, m.args.term)
    ensures Enabled(g, AppendReplyStep(m, r))
  {
    hide SoundState, SyncInv, AnswerOk, Durable;
    ReplyFacts(g, m, r);
    SoundServer(g, m.args.leader);
  }

  lemma InTermRunHonest(n: nat, steps: seq<Step>)
    requires SoundRun(n, steps) && InTermRun(n, steps)
    ensures HonestRun(n, steps)
  {
    forall k | 0 <= k < |steps| ensures HonestStep(Run(n, steps[..k]), steps[k]) {
      SoundPrefix(n, steps, k);
      RunSync(n, steps[..k]);
      hide Run, SoundState, SyncInv;
      InTermHonest(Run(n, steps[..k]), steps[k]);
    }
  }

  // ----- the other steps

  lemma VoteReplyIndices(g: Cluster, a: VoteRequest, peer: nat, r: VoteReply)
    requires SoundState(g) && SyncInv(g) && IndexInv(g) && Enabled(g, VoteReplyStep(a, peer, r))
    requires SoundState(DoVoteReply(g, a, peer, r))
    ensures IndexInv(DoVoteReply(g, a, peer, r))
  {
    hide HandleVoteReply, SyncInv, SoundState, IndexInv, IndicesOk;
    var g', c := DoVoteReply(g, a, peer, r), a.candidate;
    VoteReplyKeepsRest(g.servers[c], r, g'.elections[(c, a.term)].votes);
    if g'.servers[c].role.Leader? && !g.servers[c].role.Leader? {
      TermNotLed(g, g', c);
      SoundServer(g, c);
      forall p | 0 <= p < |g.servers| && p != c ensures 0 <= Acked(g.acked, g.servers[c].currentTerm, p) {
        NoAckUnled(g, g.servers[c].currentTerm, p);
      }
      LeaderIndices(g.servers[c], g.acked, |g.servers|);
    }
    IndexMoves(g, g', c);
  }

  lemma VoteReplyKeepsRest(s: Server, r: VoteReply, votes: int)
    ensures var s' := HandleVoteReply(s, r, votes);
      && (s'.role.Leader? && !s.role.Leader? ==> s.role.Candidate? && s' == BecomeLeader(s))
      && (s'.role.Leader? && s.role.Leader? ==> SameIndices(s, s'))
  {
  }

  lemma SoundServer(g: Cluster, v: nat)
    requires SoundState(g) && v < |g.servers|
    ensures ServerOk(g.servers[v], v, |g.servers|)
  {
    ServerAt(g, v);
  }

  lemma VoteKeepsRest(s: Server, a: VoteRequest)
    requires s.logs != []
    ensures SameIndices(s, HandleVote(s, a).0)
  {
  }

  lemma IndicesAt(g: Cluster, v: nat)
    requires IndexInv(g) && v < |g.servers|
    ensures IndicesOk(g.servers[v], g.acked, |g.servers|)
  {
  }

  lemma IndexStep(g: Cluster, step: Step)
    requires SoundState(g) && SyncInv(g) && IndexInv(g) && Sound(g, step)
    requires SoundState(Apply(g, step))
    ensures IndexInv(Apply(g, step)) <==> HonestStep(g, step)
  {
    hide SoundState, SyncInv, IndexInv, HandleVote, StartCommand, IndicesOk, Honest;
    if Enabled(g, step) {
      match step
      case TimeoutStep(v) => IndexMoves(g, DoTimeout(g, v), v);
      case VoteStep(v, a) => VoteKeepsRest(g.servers[v], a); IndexMoves(g, DoVote(g, v, a), v);
      case VoteReplyStep(a, peer, r) => VoteReplyIndices(g, a, peer, r);
      case StartStep(v, command) =>
        IndicesAt(g, v);
        StartIndices(g.servers[v], g.acked, |g.servers|, command);
        IndexMoves(g, DoStart(g, v, command), v);
      case SendStep(v, peer) => IndexMoves(g, DoSend(g, v, peer), v);
      case AppendStep(sent) => AppendKeepsIndices(g, sent);
      case AppendReplyStep(sent, r) => ReplyKeepsExactly(g, sent, r);
      case CrashStep(v) => IndexMoves(g, DoCrash(g, v), v);
    }
  }

  lemma HonestPrefix(n: nat, steps: seq<Step>, k: nat)
    requires HonestRun(n, steps) && k <= |steps|
    ensures HonestRun(n, steps[..k])
  {
    forall j | 0 <= j < k ensures HonestStep(Run(n, steps[..k][..j]), steps[..k][j]) {
      assert steps[..k][..j] == steps[..j];
    }
  }

  lemma {:induction false} RunIndices(n: nat, steps: seq<Step>)
    requires SoundRun(n, steps) && HonestRun(n, steps)
    ensures IndexInv(Run(n, steps)) && SyncInv(Run(n, steps))
    ensures SoundState(Run(n, steps)) && |Run(n, steps).servers| == n
  {
    RunSync(n, steps);
    if steps != [] {
      var k := |steps| - 1;
      SoundPrefix(n, steps, k);
      HonestPrefix(n, steps, k);
      RunIndices(n, steps[..k]);
      hide SoundState, SyncInv, IndexInv, Apply;
      IndexStep(Run(n, steps[..k]), steps[k]);
    }
  }

  /** In a sound run, the index arrays of all leaders stay within what was accepted, at
      every point, exactly if all replies handled by leaders are honest. */
  lemma IndicesExactly(n: nat, steps: seq<Step>)
    requires SoundRun(n, steps)
    ensures (forall k :: 0 <= k <= |steps| ==> IndexInv(Run(n, steps[..k]))) <==> HonestRun(n, steps)
  {
    hide Run, SoundState, SyncInv, IndexInv, Apply, HonestStep;
    if HonestRun(n, steps) {
      forall k | 0 <= k <= |steps| ensures IndexInv(Run(n, steps[..k])) {
        SoundPrefix(n, steps, k);
        HonestPrefix(n, steps, k);
        RunIndices(n, steps[..k]);
      }
    }
    if forall k :: 0 <= k <= |steps| ==> IndexInv(Run(n, steps[..k])) {
      forall k | 0 <= k < |steps| ensures HonestStep(Run(n, steps[..k]), steps[k]) {
        assert IndexInv(Run(n, steps[..k])) && IndexInv(Run(n, steps[..k + 1]));
        SoundPrefix(n, steps, k);
        SoundPrefix(n, steps, k + 1);
        RunSync(n, steps[..k]);
        RunSync(n, steps[..k + 1]);
        RunLast(n, steps[..k + 1]);
        assert steps[..k + 1][..k] == steps[..k];
        IndexStep(Run(n, steps[..k]), steps[k]);
      }
    }
  }

  /** A leader can always build the next append for any server. */
  lemma AlwaysCanBuild(n: nat, steps: seq<Step>, v: nat, p: nat)
    requires SoundRun(n, steps) && HonestRun(n, steps) && v < n && p < n
    requires var g := Run(n, steps); |g.servers| == n && g.servers[v].role.Leader?
    ensures CanBuild(Run(n, steps).servers[v], p)
  {
    RunIndices(n, steps);
    hide Run;
    var s := Run(n, steps).servers[v];
    assert IndicesOk(s, Run(n, steps).acked, n);
    assert IndexOk(s, Run(n, steps).acked, p);
  }

  // ----- the majority behind a commit

  ghost function AtLeast(m: seq<int>, i: int): set<nat> {
    set p: nat | p < |m| && m[p] >= i
  }

  lemma {:induction false} CountIsSize(m: seq<int>, i: int)
    ensures Count(m, i) == |AtLeast(m, i)|
  {
    if m != [] {
      var k := |m| - 1;
      CountIsSize(m[..k], i);
      assert AtLeast(m, i) == AtLeast(m[..k], i) + if m[k] >= i then {k} else {};
    }
  }

  /** The commit index found is counted by a majority, and none above it is. */
  lemma {:induction false} CommitCounted(m: seq<int>, low: int, i: int)
    ensures var c := CommitUpTo(m, low, i);
      && low <= c && (c != low ==> c <= i && Count(m, c) > |m| / 2)
      && forall j :: c < j <= i ==> Count(m, j) <= |m| / 2
    decreases i - low
  {
    if i > low && Count(m, i) <= |m| / 2 {
      CommitCounted(m, low, i - 1);
    }
  }

  // ----- what "acknowledged" means

  /** Server `p` has held `logs` up to `i` while in term `t`. */
  ghost predicate HeldUpTo(g: Cluster, p: nat, t: int, logs: Log, i: int) {
    exists l :: (p, t, l) in g.held && Same(l, logs, i)
  }

  /** What the leader `v` was told `f` accepted, `f` has held. */
  ghost predicate AckHeld(g: Cluster, v: nat, f: nat)
    requires v < |g.servers|
  {
    var t := g.servers[v].currentTerm;
    (t, f) in g.acked ==> HeldUpTo(g, f, t, g.servers[v].logs, g.acked[(t, f)])
  }

  ghost predicate HeldInv(g: Cluster) {
    forall v, f: nat :: 0 <= v < |g.servers| && f != v && g.servers[v].role.Leader? ==> AckHeld(g, v, f)
  }

  lemma HeldAt(g: Cluster, v: nat, f: nat)
    requires HeldInv(g) && v < |g.servers| && f != v && g.servers[v].role.Leader?
    ensures AckHeld(g, v, f)
  {
  }

  lemma HeldLonger(g: Cluster, g': Cluster, p: nat, t: int, logs: Log, logs': Log, i: int)
    requires HeldUpTo(g, p, t, logs, i) && g.held <= g'.held && logs <= logs'
    ensures HeldUpTo(g', p, t, logs', i)
  {
    var l :| (p, t, l) in g.held && Same(l, logs, i);
    assert logs'[..i + 1] == logs[..i + 1];
    assert (p, t, l) in g'.held;
  }

  /** No leader begins, and logs of leaders only grow. */
  lemma HeldMoves(g: Cluster, g': Cluster)
    requires HeldInv(g) && |g'.servers| == |g.servers| && g'.acked == g.acked && g.held <= g'.held
    requires forall u :: 0 <= u < |g.servers| && g'.servers[u].role.Leader? ==>
      LeadsOn(g.servers[u], g'.servers[u]) || NoAcks(g, g'.servers[u].currentTerm)
    ensures HeldInv(g')
  {
    forall u, f: nat | 0 <= u < |g.servers| && f != u && g'.servers[u].role.Leader? ensures AckHeld(g', u, f) {
      var t := g'.servers[u].currentTerm;
      if LeadsOn(g.servers[u], g'.servers[u]) && (t, f) in g.acked {
        assert AckHeld(g, u, f);
        HeldLonger(g, g', f, t, g.servers[u].logs, g'.servers[u].logs, g.acked[(t, f)]);
      }
    }
  }

  ghost predicate LeadsOn(s: Server, s': Server) {
    s.role.Leader? && s'.currentTerm == s.currentTerm && s.logs <= s'.logs
  }

  ghost predicate NoAcks(g: Cluster, t: int) {
    forall f: nat :: (t, f) !in g.acked
  }

  lemma AppendHeld(g: Cluster, m: Sent)
    requires SoundState(g) && SyncInv(g) && HeldInv(g) && Enabled(g, AppendStep(m))
    ensures HeldInv(DoAppend(g, m))
  {
    hide SoundState, SyncInv, HeldInv, HandleAppend, AckHeld;
    var g' := DoAppend(g, m);
    forall u, f: nat | 0 <= u < |g.servers| && f != u && g'.servers[u].role.Leader? ensures AckHeld(g', u, f) {
      AppendAckHeld(g, m, u, f);
    }
    HeldAll(g');
  }

  lemma HeldAll(g: Cluster)
    requires forall v, f: nat :: 0 <= v < |g.servers| && f != v && g.servers[v].role.Leader? ==> AckHeld(g, v, f)
    ensures HeldInv(g)
  {
  }

  lemma AppendAckHeld(g: Cluster, m: Sent, u: nat, f: nat)
    requires SoundState(g) && SyncInv(g) && HeldInv(g) && Enabled(g, AppendStep(m))
    requires u < |g.servers| && f != u && DoAppend(g, m).servers[u].role.Leader?
    ensures AckHeld(DoAppend(g, m), u, f)
  {
    hide SoundState, SyncInv, HeldInv, HandleAppend, SentOk, ServerShape, HeldUpTo, Same;
    var g', t := DoAppend(g, m), g.servers[u].currentTerm;
    LeaderUnmoved(g, m, u);
    HeldAt(g, u, f);
    MessageFacts(g, m);
    AppendAnswer(g.servers[m.to], m);
    if HandleAppend(g.servers[m.to], m.args).1.success && f == m.to && m.args.term == t {
      ReceiverInSync(g, m, u);
      HeldNow(g', f, t, g'.servers[f].logs, g.servers[u].logs, g'.acked[(t, f)]);
    } else if (t, f) in g.acked {
      HeldLonger(g, g', f, t, g.servers[u].logs, g.servers[u].logs, g.acked[(t, f)]);
    }
  }

  lemma HeldNow(g: Cluster, p: nat, t: int, l: Log, logs: Log, i: int)
    requires (p, t, l) in g.held && Same(l, logs, i)
    ensures HeldUpTo(g, p, t, logs, i)
  {
  }

  lemma HeldStep(g: Cluster, step: Step)
    requires SoundState(g) && SyncInv(g) && HeldInv(g) && Sound(g, step) && SoundState(Apply(g, step))
    ensures HeldInv(Apply(g, step))
  {
    hide SoundState, SyncInv, HeldInv, HandleVote, HandleVoteReply, HandleAppend, HandleAppendReply;
    if Enabled(g, step) {
      match step
      case TimeoutStep(v) => HeldMoves(g, DoTimeout(g, v));
      case VoteStep(v, a) => VoteCases(g.servers[v], a); HeldMoves(g, DoVote(g, v, a));
      case VoteReplyStep(a, peer, r) => VoteReplyHeld(g, a, peer, r);
      case StartStep(v, command) => HeldMoves(g, DoStart(g, v, command));
      case SendStep(v, peer) => HeldMoves(g, DoSend(g, v, peer));
      case AppendStep(sent) => AppendHeld(g, sent);
      case AppendReplyStep(sent, r) =>
        AppendReplyCases(g.servers[sent.args.leader], sent.to, sent.args, r);
        HeldMoves(g, DoAppendReply(g, sent, r));
      case CrashStep(v) => HeldMoves(g, DoCrash(g, v));
    }
  }

  lemma VoteReplyHeld(g: Cluster, a: VoteRequest, peer: nat, r: VoteReply)
    requires SoundState(g) && SyncInv(g) && HeldInv(g) && Enabled(g, VoteReplyStep(a, peer, r))
    requires SoundState(DoVoteReply(g, a, peer, r))
    ensures HeldInv(DoVoteReply(g, a, peer, r))
  {
    hide SoundState, SyncInv, HeldInv, HandleVoteReply;
    var g', c := DoVoteReply(g, a, peer, r), a.candidate;
    VoteReplyCases(g.servers[c], r, g'.elections[(c, a.term)].votes);
    if g'.servers[c].role.Leader? && !g.servers[c].role.Leader? {
      TermNotLed(g, g', c);
      forall f: nat ensures (g.servers[c].currentTerm, f) !in g.acked {
        NoAckUnled(g, g.servers[c].currentTerm, f);
      }
    }
    HeldMoves(g, g');
  }

  lemma {:induction false} RunHeld(n: nat, steps: seq<Step>)
    requires SoundRun(n, steps)
    ensures HeldInv(Run(n, steps))
  {
    if steps != [] {
      var k := |steps| - 1;
      SoundPrefix(n, steps, k);
      RunHeld(n, steps[..k]);
      RunSync(n, steps[..k]);
      RunSync(n, steps);
      hide SoundState, SyncInv, HeldInv, Apply;
      HeldStep(Run(n, steps[..k]), steps[k]);
    }
  }

  /** Server `p` has acknowledged the log of leader `v` up to `i`: it has held it in
      that term, and holds it still unless it has left the term. */
  ghost predicate Acknowledged(g: Cluster, v: nat, p: nat, i: int)
    requires v < |g.servers| && p < |g.servers|
  {
    var t := g.servers[v].currentTerm;
    p == v || (
      && Acked(g.acked, t, p) >= i && HeldUpTo(g, p, t, g.servers[v].logs, i)
      && (g.servers[p].currentTerm <= t ==> Same(g.servers[p].logs, g.servers[v].logs, i)))
  }

  ghost function Acknowledgers(g: Cluster, v: nat, i: int): set<nat>
    requires v < |g.servers|
  {
    set p: nat | p < |g.servers| && Acknowledged(g, v, p, i)
  }

  lemma MatchAcknowledged(g: Cluster, v: nat, p: nat, i: int)
    requires SyncInv(g) && v < |g.servers| && p < |g.servers| && g.servers[v].role.Leader? && g.servers[v].me == v
    requires p != v ==> AckHeld(g, v, p)
    requires IndicesOk(g.servers[v], g.acked, |g.servers|) && 1 <= i <= g.servers[v].matchIndex[p]
    ensures Acknowledged(g, v, p, i)
  {
    var s, t := g.servers[v], g.servers[v].currentTerm;
    assert IndexOk(s, g.acked, p);
    if p != v {
      SyncAt(g, v, p);
      assert (t, p) in g.acked && AckOk(g, (t, p));
      hide SyncInv;
      var l :| (p, t, l) in g.held && Same(l, s.logs, g.acked[(t, p)]);
      SameShorter(l, s.logs, i, g.acked[(t, p)]);
      if g.servers[p].currentTerm == t {
        SameShorter(g.servers[p].logs, s.logs, i, Acked(g.acked, t, p));
      }
    }
  }

  ghost predicate CommitsOk(g: Cluster) {
    forall v :: 0 <= v < |g.servers| ==> 0 <= g.servers[v].commitIndex
  }

  lemma {:induction false} RunCommits(n: nat, steps: seq<Step>)
    ensures CommitsOk(Run(n, steps))
  {
    if steps != [] {
      var k := |steps| - 1;
      RunCommits(n, steps[..k]);
      CommitsStep(Run(n, steps[..k]), steps[k]);
    }
  }

  lemma CommitsStep(g: Cluster, step: Step)
    requires CommitsOk(g)
    ensures CommitsOk(Apply(g, step))
  {
    hide HandleAppend, HandleAppendReply;
    if Enabled(g, step) && step.AppendStep? {
      AppendCommits(g.servers[step.sent.to], step.sent.args);
    } else if Enabled(g, step) && step.AppendReplyStep? {
      ReplyCommits(g.servers[step.sent.args.leader], step.sent.to, step.sent.args, step.appendReply);
    }
  }

  lemma AppendCommits(s: Server, a: AppendArgs)
    requires 0 <= a.prevLogIndex && 0 <= s.commitIndex
    ensures 0 <= HandleAppend(s, a).0.commitIndex
  {
    hide Merge, RunStart;
    if a.term >= s.currentTerm && a.prevLogIndex < |s.logs| {
      MergeReaches(s.logs, a.prevLogIndex, a.entries);
    }
  }

  lemma ReplyCommits(s: Server, peer: nat, a: AppendArgs, r: AppendReply)
    requires CanHandleReply(s, peer, a, r)
    ensures s.commitIndex <= HandleAppendReply(s, peer, a, r).commitIndex
  {
    hide CommitUpTo, BackUp;
    if r.success {
      CommitCounted(s.matchIndex[peer := a.prevLogIndex + |a.entries|], s.commitIndex, LastIndex(s.logs));
    }
  }

  /** Whenever the leader advances its commit index, a strict majority of servers
      have acknowledged its log up to there. */
  lemma CommitMajority(n: nat, steps: seq<Step>, m: Sent, r: AppendReply)
    requires SoundRun(n, steps) && HonestRun(n, steps) && Enabled(Run(n, steps), AppendReplyStep(m, r))
    requires HonestStep(Run(n, steps), AppendReplyStep(m, r)) && Run(n, steps).servers[m.args.leader].role.Leader?
    requires var g, v := Run(n, steps), m.args.leader;
      DoAppendReply(g, m, r).servers[v].commitIndex > g.servers[v].commitIndex
    ensures var g' := DoAppendReply(Run(n, steps), m, r);
      |Acknowledgers(g', m.args.leader, g'.servers[m.args.leader].commitIndex)| > n / 2
  {
    hide Run, SoundState, SyncInv, IndexInv, HeldInv;
    RunIndices(n, steps);
    RunCommits(n, steps);
    RunHeld(n, steps);
    CommitMajorityIn(Run(n, steps), m, r);
  }

  /** The servers that hold the leader's log up to `i`. */
  ghost function Replicas(g: Cluster, v: nat, i: int): set<nat>
    requires v < |g.servers|
  {
    set p: nat | p < |g.servers| && Same(g.servers[p].logs, g.servers[v].logs, i)
  }

  ghost function Departed(g: Cluster, v: nat): set<nat>
    requires v < |g.servers|
  {
    set p: nat | p < |g.servers| && g.servers[p].currentTerm > g.servers[v].currentTerm
  }

  /** Of that majority, those that have not left the term hold the leader's log up to
      there now. */
  lemma CommitReplicated(n: nat, steps: seq<Step>, m: Sent, r: AppendReply)
    requires SoundRun(n, steps) && HonestRun(n, steps) && Enabled(Run(n, steps), AppendReplyStep(m, r))
    requires HonestStep(Run(n, steps), AppendReplyStep(m, r)) && Run(n, steps).servers[m.args.leader].role.Leader?
    requires var g, v := Run(n, steps), m.args.leader;
      DoAppendReply(g, m, r).servers[v].commitIndex > g.servers[v].commitIndex
    ensures var g', v := DoAppendReply(Run(n, steps), m, r), m.args.leader;
      var i := g'.servers[v].commitIndex;
      && |Acknowledgers(g', v, i)| > n / 2
      && Acknowledgers(g', v, i) <= Replicas(g', v, i) + Departed(g', v)
  {
    CommitMajority(n, steps, m, r);
    RunCommits(n, steps);
    hide Run, HandleAppendReply;
    var g', v := DoAppendReply(Run(n, steps), m, r), m.args.leader;
    var i := g'.servers[v].commitIndex;
    assert 0 <= i < |g'.servers[v].logs| by { CommitInLog(Run(n, steps), m, r); }
  }

  lemma CommitInLog(g: Cluster, m: Sent, r: AppendReply)
    requires Enabled(g, AppendReplyStep(m, r)) && CommitsOk(g)
    requires g.servers[m.args.leader].commitIndex < DoAppendReply(g, m, r).servers[m.args.leader].commitIndex
    ensures var s' := DoAppendReply(g, m, r).servers[m.args.leader]; 0 <= s'.commitIndex < |s'.logs|
  {
    var s, s' := g.servers[m.args.leader], DoAppendReply(g, m, r).servers[m.args.leader];
    CommitCounted(s'.matchIndex, s.commitIndex, LastIndex(s'.logs));
  }

  lemma CommitMajorityIn(g: Cluster, m: Sent, r: AppendReply)
    requires SoundState(g) && SyncInv(g) && IndexInv(g) && HeldInv(g)
    requires Enabled(g, AppendReplyStep(m, r)) && HonestStep(g, AppendReplyStep(m, r))
    requires g.servers[m.args.leader].role.Leader?
    requires 0 <= g.servers[m.args.leader].commitIndex < DoAppendReply(g, m, r).servers[m.args.leader].commitIndex
    ensures var g' := DoAppendReply(g, m, r);
      |Acknowledgers(g', m.args.leader, g'.servers[m.args.leader].commitIndex)| > |g.servers| / 2
  {
    hide SoundState, SyncInv, IndexInv, HeldInv;
    var g', v := DoAppendReply(g, m, r), m.args.leader;
    ReplyKeepsExactly(g, m, r);
    AppendReplySync(g, m, r);
    SoundServer(g, v);
    var s, s' := g.servers[v], g'.servers[v];
    var i := s'.commitIndex;
    CommitCounted(s'.matchIndex, s.commitIndex, LastIndex(s'.logs));
    CountIsSize(s'.matchIndex, i);
    AppendReplyCases(s, m.to, m.args, r);
    assert s'.role.Leader?;
    hide HandleAppendReply, Acknowledgers, Acknowledged, CommitUpTo, Count, AtLeast, AckHeld;
    HeldMoves(g, g');
    assert IndicesOk(s', g'.acked, |g.servers|) by { IndicesAt(g', v); }
    forall p | p in AtLeast(s'.matchIndex, i) ensures p in Acknowledgers(g', v, i) {
      AtLeastMeans(s'.matchIndex, i, p);
      if p != v {
        HeldAt(g', v, p);
      }
      MatchAcknowledged(g', v, p, i);
      InAcknowledgers(g', v, p, i);
    }
    SubsetSize(AtLeast(s'.matchIndex, i), Acknowledgers(g', v, i));
  }

  lemma InAcknowledgers(g: Cluster, v: nat, p: nat, i: int)
    requires v < |g.servers| && p < |g.servers| && Acknowledged(g, v, p, i)
    ensures p in Acknowledgers(g, v, i)
  {
  }

  lemma AtLeastMeans(m: seq<int>, i: int, p: nat)
    requires p in AtLeast(m, i)
    ensures p < |m| && m[p] >= i
  {
  }
}
