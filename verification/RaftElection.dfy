/**
 Election safety in every run, and exactly when each leader has won the term it
 leads (raft/raft_leader_election.go, raft/raft_snapshot.go; section 5.2 of "In
 Search of an Understandable Consensus Algorithm (Extended Version)").
 */
module RaftElection {
  import opened Common
  import opened RaftServer
  import opened RaftCluster

  /** Nothing is lost in a crash: what is saved is the live triple. */
  ghost predicate Durable(s: Server) {
    match s.saved
    case Some(p) => p == Save(s)
    case None => Save(s) == Persisted(0, -1, [SENTINEL])
  }

  ghost predicate ServerOk(s: Server, v: nat, n: nat) {
    s.me == v < n == |s.nextIndex| == |s.matchIndex| && s.logs != [] && Durable(s)
  }

  /** A recorded vote is for a past term or is the server's current vote. */
  ghost predicate GrantOk(servers: seq<Server>, x: (nat, int, nat)) {
    && x.0 < |servers| && x.1 <= servers[x.0].currentTerm
    && (x.1 == servers[x.0].currentTerm ==> servers[x.0].votedFor == x.2)
  }

  ghost predicate OneVote(grants: set<(nat, int, nat)>) {
    forall x, y :: x in grants && y in grants && x.0 == y.0 && x.1 == y.1 ==> x.2 == y.2
  }

  /** The counter counts servers that voted for this candidate in this term. */
  ghost predicate ElectionOk(servers: seq<Server>, grants: set<(nat, int, nat)>, k: (nat, int), e: Election) {
    && k.0 < |servers| && k.1 <= servers[k.0].currentTerm
    && e.votes == |e.counted| && e.counted !! e.pending
    && (forall p :: p in e.pending ==> p < |servers| && p != k.0)
    && (forall p :: p in e.counted ==> p < |servers| && (p, k.1, k.0) in grants)
  }

  ghost predicate ReplyOk(grants: set<(nat, int, nat)>, r: (VoteRequest, nat, VoteReply)) {
    r.2.granted ==> (r.1, r.0.term, r.0.candidate) in grants
  }

  ghost predicate ElectionInv(g: Cluster) {
    && (forall v :: 0 <= v < |g.servers| ==> ServerOk(g.servers[v], v, |g.servers|))
    && (forall x :: x in g.grants ==> GrantOk(g.servers, x))
    && OneVote(g.grants)
    && (forall k :: k in g.elections ==> ElectionOk(g.servers, g.grants, k, g.elections[k]))
    && (forall r :: r in g.voteReplies ==> ReplyOk(g.grants, r))
  }

  /** The term rises, or it and the vote in it stay. */
  ghost predicate VoteKept(s: Server, t: Server) {
    s.currentTerm < t.currentTerm || (s.currentTerm == t.currentTerm && s.votedFor == t.votedFor)
  }

  lemma InitElection(n: nat)
    ensures ElectionInv(Init(n))
  {
  }

  /** One server moves on without voting. */
  lemma ServerMoves(g: Cluster, v: nat, s: Server)
    requires ElectionInv(g) && v < |g.servers| && ServerOk(s, v, |g.servers|) && VoteKept(g.servers[v], s)
    ensures ElectionInv(g.(servers := g.servers[v := s]))
  {
    var servers' := g.servers[v := s];
    forall x | x in g.grants ensures GrantOk(servers', x) {
      assert GrantOk(g.servers, x);
    }
    forall k | k in g.elections ensures ElectionOk(servers', g.grants, k, g.elections[k]) {
      assert ElectionOk(g.servers, g.grants, k, g.elections[k]);
    }
  }

  /** Fields outside elections do not matter here. */
  lemma Irrelevant(g: Cluster, g': Cluster)
    requires ElectionInv(g)
    requires g'.servers == g.servers && g'.elections == g.elections
    requires g'.grants == g.grants && g'.voteReplies == g.voteReplies
    ensures ElectionInv(g')
  {
  }

  lemma {:induction false} TimeoutKeeps(g: Cluster, v: nat)
    requires ElectionInv(g) && Enabled(g, TimeoutStep(v))
    ensures ElectionInv(DoTimeout(g, v))
  {
    var g' := DoTimeout(g, v);
    var s, t := g.servers[v], g'.servers[v].currentTerm;
    ServerMoves(g, v, g'.servers[v]);
    var g1 := g.(servers := g'.servers);
    forall x | x in g.grants ensures x.0 == v ==> x.1 != t {
      assert GrantOk(g.servers, x);
    }
    forall x | x in g'.grants ensures GrantOk(g'.servers, x) {
      assert x in g.grants ==> GrantOk(g1.servers, x);
    }
    forall k | k in g'.elections ensures ElectionOk(g'.servers, g'.grants, k, g'.elections[k]) {
      if k != (v, t) {
        assert ElectionOk(g1.servers, g1.grants, k, g1.elections[k]);
      }
    }
    forall r | r in g'.voteReplies ensures ReplyOk(g'.grants, r) {
      assert ReplyOk(g.grants, r);
    }
  }

  /** A server votes for a new term, or in a term it has not voted in yet, or for
      the same candidate again. */
  lemma VoteHandled(s: Server, v: nat, n: nat, a: VoteRequest)
    requires ServerOk(s, v, n)
    ensures var (s', r) := HandleVote(s, a);
      && ServerOk(s', v, n)
      && (!r.granted ==> VoteKept(s, s'))
      && (r.granted ==> s'.currentTerm == a.term >= s.currentTerm && s'.votedFor == a.candidate
                        && (s.currentTerm == a.term ==> s.votedFor == -1 || s.votedFor == a.candidate))
  {
  }

  lemma GrantAdded(g: Cluster, v: nat, s: Server, t: int, c: nat)
    requires ElectionInv(g) && v < |g.servers| && ServerOk(s, v, |g.servers|)
    requires s.currentTerm == t >= g.servers[v].currentTerm && s.votedFor == c
    requires g.servers[v].currentTerm == t ==> g.servers[v].votedFor == -1 || g.servers[v].votedFor == c
    ensures ElectionInv(g.(servers := g.servers[v := s], grants := g.grants + {(v, t, c)}))
  {
    var g' := g.(servers := g.servers[v := s], grants := g.grants + {(v, t, c)});
    forall x | x in g.grants ensures GrantOk(g'.servers, x) && (x.0 == v && x.1 == t ==> x.2 == c) {
      assert GrantOk(g.servers, x);
    }
    forall k | k in g'.elections ensures ElectionOk(g'.servers, g'.grants, k, g'.elections[k]) {
      assert ElectionOk(g.servers, g.grants, k, g.elections[k]);
    }
    forall q | q in g'.voteReplies ensures ReplyOk(g'.grants, q) {
      assert ReplyOk(g.grants, q);
    }
  }

  lemma ReplyAdded(g: Cluster, q: (VoteRequest, nat, VoteReply))
    requires ElectionInv(g) && ReplyOk(g.grants, q)
    ensures ElectionInv(g.(voteReplies := g.voteReplies + {q}))
  {
  }

  lemma VoteStepKeeps(g: Cluster, v: nat, a: VoteRequest)
    requires ElectionInv(g) && Enabled(g, VoteStep(v, a))
    ensures ElectionInv(DoVote(g, v, a))
  {
    hide HandleVote, GrantOk, ElectionOk, OneVote;
    var (s, r) := HandleVote(g.servers[v], a);
    VoteHandled(g.servers[v], v, |g.servers|, a);
    var g1;
    if r.granted {
      GrantAdded(g, v, s, a.term, a.candidate);
      g1 := g.(servers := g.servers[v := s], grants := g.grants + {(v, a.term, a.candidate)});
    } else {
      ServerMoves(g, v, s);
      assert g.grants + {} == g.grants;
      g1 := g.(servers := g.servers[v := s]);
    }
    ReplyAdded(g1, (a, v, r));
  }

  lemma TallyOk(g: Cluster, k: (nat, int), peer: nat, counts: bool)
    requires ElectionInv(g) && k in g.elections && peer in g.elections[k].pending
    requires counts ==> (peer, k.1, k.0) in g.grants
    ensures ElectionOk(g.servers, g.grants, k, Tally(g.elections[k], peer, counts))
  {
    assert ElectionOk(g.servers, g.grants, k, g.elections[k]);
    if counts {
      assert GrantOk(g.servers, (peer, k.1, k.0));
    }
  }

  lemma ElectionUpdated(g: Cluster, k: (nat, int), e: Election)
    requires ElectionInv(g) && ElectionOk(g.servers, g.grants, k, e)
    ensures ElectionInv(g.(elections := g.elections[k := e]))
  {
  }

  lemma VoteReplyHandled(g: Cluster, c: nat, r: VoteReply, votes: int)
    requires ElectionInv(g) && c < |g.servers|
    ensures var s' := HandleVoteReply(g.servers[c], r, votes);
      ServerOk(s', c, |g.servers|) && VoteKept(g.servers[c], s')
  {
    assert ServerOk(g.servers[c], c, |g.servers|);
  }

  lemma VoteReplyKeeps(g: Cluster, a: VoteRequest, peer: nat, r: VoteReply)
    requires ElectionInv(g) && Enabled(g, VoteReplyStep(a, peer, r))
    ensures ElectionInv(DoVoteReply(g, a, peer, r))
  {
    var g', c := DoVoteReply(g, a, peer, r), a.candidate;
    var k := (c, a.term);
    assert ReplyOk(g.grants, (a, peer, r));
    TallyOk(g, k, peer, Counts(g.servers[c], r));
    var g1 := g.(elections := g'.elections);
    ElectionUpdated(g, k, g'.elections[k]);
    hide ElectionInv, HandleVoteReply;
    assert ServerOk(g'.servers[c], c, |g.servers|) && VoteKept(g.servers[c], g'.servers[c]) by {
      VoteReplyHandled(g, c, r, g'.elections[k].votes);
    }
    ServerMoves(g1, c, g'.servers[c]);
    Irrelevant(g1.(servers := g'.servers), g');
  }

  /** The remaining handlers never touch the vote of the current term. */
  lemma HandlersKeep(s: Server, v: nat, n: nat)
    requires ServerOk(s, v, n)
    ensures forall command :: ServerOk(StartCommand(s, command), v, n) && VoteKept(s, StartCommand(s, command))
    ensures ServerOk(Restart(s), v, n) && VoteKept(s, Restart(s))
  {
  }

  lemma MergeNonempty(logs: Log, prev: nat, entries: Log)
    requires prev < |logs|
    ensures Merge(logs, prev, entries) != []
  {
  }

  lemma AppendKeepsServer(s: Server, v: nat, n: nat, a: AppendArgs)
    requires ServerOk(s, v, n) && 0 <= a.prevLogIndex
    ensures ServerOk(HandleAppend(s, a).0, v, n) && VoteKept(s, HandleAppend(s, a).0)
  {
    var s1 := Adopt(s, a.term);
    if a.prevLogIndex < |s1.logs| {
      MergeNonempty(s1.logs, a.prevLogIndex, a.entries);
    }
    hide Merge, RunStart;
  }

  lemma AppendReplyKeepsServer(s: Server, v: nat, n: nat, peer: nat, a: AppendArgs, r: AppendReply)
    requires ServerOk(s, v, n) && CanHandleReply(s, peer, a, r)
    ensures ServerOk(HandleAppendReply(s, peer, a, r), v, n) && VoteKept(s, HandleAppendReply(s, peer, a, r))
  {
    hide CommitUpTo, BackUp;
  }

  lemma CrashKeeps(g: Cluster, v: nat)
    requires ElectionInv(g) && v < |g.servers|
    ensures ElectionInv(DoCrash(g, v))
  {
    var g' := DoCrash(g, v);
    HandlersKeep(g.servers[v], v, |g.servers|);
    ServerMoves(g, v, g'.servers[v]);
    forall k | k in g'.elections ensures ElectionOk(g'.servers, g'.grants, k, g'.elections[k]) {
      assert ElectionOk(g'.servers, g.grants, k, g.elections[k]);
    }
  }

  lemma StepKeeps(g: Cluster, step: Step)
    requires ElectionInv(g)
    ensures ElectionInv(Apply(g, step))
  {
    hide ElectionInv;
    if Enabled(g, step) {
      match step
      case TimeoutStep(v) => TimeoutKeeps(g, v);
      case VoteStep(v, a) => VoteStepKeeps(g, v, a);
      case VoteReplyStep(a, peer, r) => VoteReplyKeeps(g, a, peer, r);
      case StartStep(v, command) => StartKeeps(g, v, command);
      case SendStep(v, peer) => Irrelevant(g, DoSend(g, v, peer));
      case AppendStep(sent) => AppendKeeps(g, sent);
      case AppendReplyStep(sent, r) => AppendReplyKeeps(g, sent, r);
      case CrashStep(v) => CrashKeeps(g, v);
    }
  }

  lemma StartKeeps(g: Cluster, v: nat, command: Command)
    requires ElectionInv(g) && Enabled(g, StartStep(v, command))
    ensures ElectionInv(DoStart(g, v, command))
  {
    HandlersKeep(g.servers[v], v, |g.servers|);
    var s := StartCommand(g.servers[v], command);
    ServerMoves(g, v, s);
    Irrelevant(g.(servers := g.servers[v := s]), DoStart(g, v, command));
  }

  lemma AppendKeeps(g: Cluster, sent: Sent)
    requires ElectionInv(g) && Enabled(g, AppendStep(sent))
    ensures ElectionInv(DoAppend(g, sent))
  {
    hide HandleAppend;
    var v := sent.to;
    AppendKeepsServer(g.servers[v], v, |g.servers|, sent.args);
    var s := HandleAppend(g.servers[v], sent.args).0;
    ServerMoves(g, v, s);
    Irrelevant(g.(servers := g.servers[v := s]), DoAppend(g, sent));
  }

  lemma AppendReplyKeeps(g: Cluster, sent: Sent, r: AppendReply)
    requires ElectionInv(g) && Enabled(g, AppendReplyStep(sent, r))
    ensures ElectionInv(DoAppendReply(g, sent, r))
  {
    hide HandleAppendReply;
    var v := sent.args.leader;
    AppendReplyKeepsServer(g.servers[v], v, |g.servers|, sent.to, sent.args, r);
    ServerMoves(g, v, HandleAppendReply(g.servers[v], sent.to, sent.args, r));
  }

  lemma {:induction false} RunElection(n: nat, steps: seq<Step>)
    ensures ElectionInv(Run(n, steps)) && |Run(n, steps).servers| == n
  {
    if steps == [] {
      InitElection(n);
    } else {
      var k := |steps| - 1;
      RunElection(n, steps[..k]);
      StepKeeps(Run(n, steps[..k]), steps[k]);
      SameSize(Run(n, steps[..k]), steps[k]);
    }
  }

  lemma SameSize(g: Cluster, step: Step)
    ensures |Apply(g, step).servers| == |g.servers|
  {
  }

  // ----- the theorems on votes

  /** A server grants its vote to at most one candidate per term, in every run
      with crashes and restarts. */
  lemma VotesOnce(n: nat, steps: seq<Step>, v: nat, t: int, a: nat, b: nat)
    requires var g := Run(n, steps); (v, t, a) in g.grants && (v, t, b) in g.grants
    ensures a == b
  {
    RunElection(n, steps);
  }

  ghost predicate Won(g: Cluster, k: (nat, int)) {
    k in g.elections && g.elections[k].votes > |g.servers| / 2
  }

  /** Two majorities share a server. */
  lemma Quorums(n: nat, a: set<nat>, b: set<nat>) returns (p: nat)
    requires (forall x :: x in a + b ==> x < n) && |a| > n / 2 && |b| > n / 2
    ensures p in a && p in b
  {
    SubsetSize(a + b, Below(n));
    assert |a + b| == |a| + |b| - |a * b|;
    p :| p in a * b;
  }

  lemma OneWinner(g: Cluster, a: nat, b: nat, t: int)
    requires ElectionInv(g) && Won(g, (a, t)) && Won(g, (b, t))
    ensures a == b
  {
    var ea, eb := g.elections[(a, t)], g.elections[(b, t)];
    assert ElectionOk(g.servers, g.grants, (a, t), ea) && ElectionOk(g.servers, g.grants, (b, t), eb);
    var p := Quorums(|g.servers|, ea.counted, eb.counted);
    assert (p, t, a) in g.grants && (p, t, b) in g.grants;
  }

  /** Counters only rise: an election keeps its record, whatever the step. */
  lemma VotesStay(g: Cluster, step: Step, k: (nat, int))
    requires k in g.elections
    requires (step.TimeoutStep? && Enabled(g, step) ==> k != (step.v, g.servers[step.v].currentTerm + 1))
    ensures var g' := Apply(g, step); k in g'.elections && g.elections[k].votes <= g'.elections[k].votes
  {
    hide HandleVote, HandleVoteReply, HandleAppend, HandleAppendReply, StartCommand, Restart;
  }

  /** An election once won stays won. */
  lemma WonStays(g: Cluster, step: Step, k: (nat, int))
    requires ElectionInv(g) && Won(g, k)
    ensures Won(Apply(g, step), k)
  {
    assert ElectionOk(g.servers, g.grants, k, g.elections[k]);
    hide ElectionInv, Apply;
    VotesStay(g, step, k);
    SameSize(g, step);
  }

  lemma RunLast(n: nat, steps: seq<Step>)
    requires steps != []
    ensures Run(n, steps) == Apply(Run(n, steps[..|steps| - 1]), steps[|steps| - 1])
  {
  }

  lemma {:induction false} WonLater(n: nat, steps: seq<Step>, j: nat, k: (nat, int))
    requires j <= |steps| && Won(Run(n, steps[..j]), k)
    ensures Won(Run(n, steps), k)
  {
    hide ElectionInv, Won, Run, Apply;
    if j == |steps| {
      assert steps[..j] == steps;
    } else {
      var l := |steps| - 1;
      assert steps[..l][..j] == steps[..j];
      WonLater(n, steps[..l], j, k);
      RunElection(n, steps[..l]);
      WonStays(Run(n, steps[..l]), steps[l], k);
      RunLast(n, steps);
    }
  }

  /** Election safety: in every run, at most one election of a term ever counts
      votes of a majority, also at different times. */
  lemma ElectionSafety(n: nat, steps: seq<Step>, i: nat, j: nat, a: nat, b: nat, t: int)
    requires i <= |steps| && j <= |steps| && Won(Run(n, steps[..i]), (a, t)) && Won(Run(n, steps[..j]), (b, t))
    ensures a == b
  {
    hide Run, ElectionInv, Won;
    WonLater(n, steps, i, (a, t));
    WonLater(n, steps, j, (b, t));
    RunElection(n, steps);
    OneWinner(Run(n, steps), a, b, t);
  }

  // ----- a crash ends the elections under way

  ghost predicate Closed(g: Cluster, k: (nat, int)) {
    k in g.elections && g.elections[k].pending == {}
  }

  lemma ClosedStep(g: Cluster, step: Step, k: (nat, int))
    requires Closed(g, k)
    requires step.TimeoutStep? && Enabled(g, step) ==> k != (step.v, g.servers[step.v].currentTerm + 1)
    ensures Closed(Apply(g, step), k)
  {
    hide HandleVote, HandleVoteReply, HandleAppend, HandleAppendReply, StartCommand, Restart;
  }

  lemma ClosedStays(g: Cluster, step: Step, k: (nat, int))
    requires ElectionInv(g) && Closed(g, k)
    ensures Closed(Apply(g, step), k)
  {
    assert ElectionOk(g.servers, g.grants, k, g.elections[k]);
    hide ElectionInv, Apply;
    ClosedStep(g, step, k);
  }

  lemma CrashCloses(g: Cluster, v: nat, t: int)
    requires v < |g.servers| && (v, t) in g.elections
    ensures Closed(Apply(g, CrashStep(v)), (v, t))
  {
  }

  lemma {:induction false} ClosedLater(n: nat, steps: seq<Step>, j: nat, k: (nat, int))
    requires j <= |steps| && Closed(Run(n, steps[..j]), k)
    ensures Closed(Run(n, steps), k)
  {
    hide ElectionInv, Closed, Run, Apply;
    if j == |steps| {
      assert steps[..j] == steps;
    } else {
      var l := |steps| - 1;
      assert steps[..l][..j] == steps[..j];
      ClosedLater(n, steps[..l], j, k);
      RunElection(n, steps[..l]);
      ClosedStays(Run(n, steps[..l]), steps[l], k);
      RunLast(n, steps);
    }
  }

  /** A vote for an election begun before its candidate crashed is never handled. */
  lemma LateVotesLost(n: nat, steps: seq<Step>, j: nat, a: VoteRequest, peer: nat, r: VoteReply)
    requires j < |steps| && steps[j] == CrashStep(a.candidate)
    requires a.candidate < |Run(n, steps[..j]).servers| && (a.candidate, a.term) in Run(n, steps[..j]).elections
    ensures !Enabled(Run(n, steps), VoteReplyStep(a, peer, r))
  {
    assert steps[..j + 1][..j] == steps[..j];
    RunLast(n, steps[..j + 1]);
    hide Run, Apply;
    CrashCloses(Run(n, steps[..j]), a.candidate, a.term);
    ClosedLater(n, steps, j + 1, (a.candidate, a.term));
  }

  /** After every step the saved triple is the live one. */
  lemma NothingUnsaved(n: nat, steps: seq<Step>, v: nat)
    requires v < n
    ensures var g := Run(n, steps); |g.servers| == n && Save(Restart(g.servers[v])) == Save(g.servers[v])
  {
    RunElection(n, steps);
    assert ServerOk(Run(n, steps).servers[v], v, n);
  }

  // ----- when a leader has won the term it leads

  ghost predicate ElectedAt(g: Cluster, v: nat)
    requires v < |g.servers|
  {
    g.servers[v].role.Leader? ==> Won(g, (v, g.servers[v].currentTerm))
  }

  /** Every leader has a majority for the term it leads. */
  ghost predicate LeadersElected(g: Cluster) {
    forall v :: 0 <= v < |g.servers| ==> ElectedAt(g, v)
  }

  /** A candidate has not won its current term yet; alone, nobody ever leads. */
  ghost predicate CampaignAt(g: Cluster, v: nat)
    requires v < |g.servers|
  {
    && (g.servers[v].role.Candidate? && |g.servers| > 1 ==> !Won(g, (v, g.servers[v].currentTerm)))
    && (g.servers[v].role.Leader? ==> |g.servers| > 1)
  }

  ghost predicate Campaigns(g: Cluster) {
    forall v :: 0 <= v < |g.servers| ==> CampaignAt(g, v)
  }

  ghost predicate Wins(g: Cluster, a: VoteRequest, r: VoteReply)
    requires a.candidate < |g.servers| && (a.candidate, a.term) in g.elections
  {
    Counts(g.servers[a.candidate], r) && g.elections[(a.candidate, a.term)].votes + 1 > |g.servers| / 2
  }

  /** The two steps that can make a leader of a term without a majority: a late
      vote that completes an earlier election of a candidate, and an election
      timer that fires at a leader. */
  ghost predicate Sound(g: Cluster, step: Step) {
    Enabled(g, step) ==>
      match step
      case TimeoutStep(v) => !g.servers[v].role.Leader?
      case VoteReplyStep(a, peer, r) => Wins(g, a, r) ==> a.term == g.servers[a.candidate].currentTerm
      case _ => true
  }

  /** Leadership and candidacy neither begin nor change term. */
  ghost predicate RoleKept(s: Server, t: Server) {
    && (t.role.Leader? ==> s.role.Leader? && t.currentTerm == s.currentTerm)
    && (t.role.Candidate? ==> s.role.Candidate? && t.currentTerm == s.currentTerm)
  }

  lemma RoleMoves(g: Cluster, g': Cluster, v: nat)
    requires v < |g.servers| == |g'.servers| && g'.servers == g.servers[v := g'.servers[v]]
    requires RoleKept(g.servers[v], g'.servers[v]) && Campaigns(g)
    requires forall k :: k in g.elections <==> k in g'.elections
    requires forall k :: k in g.elections ==> g'.elections[k].votes == g.elections[k].votes
    ensures Campaigns(g') && (LeadersElected(g) ==> LeadersElected(g'))
  {
    forall u | 0 <= u < |g.servers| ensures CampaignAt(g', u) && (ElectedAt(g, u) ==> ElectedAt(g', u)) {
      assert CampaignAt(g, u);
    }
  }

  lemma TimeoutRoles(g: Cluster, v: nat)
    requires ElectionInv(g) && Campaigns(g) && Enabled(g, TimeoutStep(v))
    ensures Campaigns(DoTimeout(g, v))
    ensures LeadersElected(g) ==> (LeadersElected(DoTimeout(g, v)) <==> !g.servers[v].role.Leader?)
  {
    hide ElectionInv;
    var g', n := DoTimeout(g, v), |g.servers|;
    assert n > 1 ==> 1 <= n / 2;
    assert g.servers[v].me == v by { ServerAt(g, v); }
    forall u | 0 <= u < n && u != v ensures CampaignAt(g', u) && (ElectedAt(g', u) <==> ElectedAt(g, u)) {
      assert CampaignAt(g, u);
      assert g'.servers[u] == g.servers[u];
    }
    assert CampaignAt(g, v);
    assert CampaignAt(g', v);
    if LeadersElected(g) {
      assert LeadersElected(g') ==> ElectedAt(g', v);
      forall u | 0 <= u < n && !g.servers[v].role.Leader? ensures ElectedAt(g', u) {
        assert ElectedAt(g, u);
      }
    }
  }

  lemma ServerAt(g: Cluster, v: nat)
    requires ElectionInv(g) && v < |g.servers|
    ensures ServerOk(g.servers[v], v, |g.servers|)
  {
  }

  lemma VoteReplyRole(s: Server, r: VoteReply, votes: int)
    ensures var s' := HandleVoteReply(s, r, votes);
      if Counts(s, r) then
        s'.currentTerm == s.currentTerm && s'.role == if votes > |s.nextIndex| / 2 then Leader else Candidate
      else if r.term > s.currentTerm then s'.role.Follower?
      else s' == s
  {
  }

  /** The reply changes the counter of its own election only. */
  lemma WonAfter(g: Cluster, a: VoteRequest, peer: nat, r: VoteReply, k: (nat, int))
    requires Enabled(g, VoteReplyStep(a, peer, r))
    ensures var g', own := DoVoteReply(g, a, peer, r), (a.candidate, a.term);
      Won(g', k) <==>
        if k == own then g.elections[own].votes + (if Counts(g.servers[own.0], r) then 1 else 0) > |g.servers| / 2
        else Won(g, k)
  {
    hide HandleVoteReply;
  }

  /** The candidate that counts the vote. */
  lemma VoteReplyOwn(g: Cluster, a: VoteRequest, peer: nat, r: VoteReply)
    requires ElectionInv(g) && Campaigns(g) && Enabled(g, VoteReplyStep(a, peer, r))
    ensures var g', c := DoVoteReply(g, a, peer, r), a.candidate;
      CampaignAt(g', c) && (ElectedAt(g, c) ==> (ElectedAt(g', c) <==> Sound(g, VoteReplyStep(a, peer, r))))
  {
    var g', c := DoVoteReply(g, a, peer, r), a.candidate;
    var k := (c, g.servers[c].currentTerm);
    ServerAt(g, c);
    assert ElectionOk(g.servers, g.grants, (c, a.term), g.elections[(c, a.term)]);
    assert CampaignAt(g, c) && |g.servers| > 1;
    WonAfter(g, a, peer, r, k);
    WonMeans(g, k);
    hide ElectionInv, ElectionOk, Campaigns, HandleVoteReply, Won;
    VoteReplyRole(g.servers[c], r, g'.elections[(c, a.term)].votes);
  }

  lemma WonMeans(g: Cluster, k: (nat, int))
    ensures k in g.elections ==> (Won(g, k) <==> g.elections[k].votes > |g.servers| / 2)
  {
  }

  lemma VoteReplyOther(g: Cluster, a: VoteRequest, peer: nat, r: VoteReply, u: nat)
    requires Campaigns(g) && Enabled(g, VoteReplyStep(a, peer, r)) && u < |g.servers| && u != a.candidate
    ensures var g' := DoVoteReply(g, a, peer, r); CampaignAt(g', u) && (ElectedAt(g', u) <==> ElectedAt(g, u))
  {
    hide HandleVoteReply;
    assert CampaignAt(g, u);
    assert DoVoteReply(g, a, peer, r).servers[u] == g.servers[u];
  }

  lemma VoteReplyRoles(g: Cluster, a: VoteRequest, peer: nat, r: VoteReply)
    requires ElectionInv(g) && Campaigns(g) && Enabled(g, VoteReplyStep(a, peer, r))
    ensures Campaigns(DoVoteReply(g, a, peer, r))
    ensures LeadersElected(g) ==>
      (LeadersElected(DoVoteReply(g, a, peer, r)) <==> Sound(g, VoteReplyStep(a, peer, r)))
  {
    hide ElectionInv, HandleVoteReply, CampaignAt, ElectedAt, Sound;
    var g', c := DoVoteReply(g, a, peer, r), a.candidate;
    VoteReplyOwn(g, a, peer, r);
    forall u | 0 <= u < |g.servers| && u != c ensures CampaignAt(g', u) && (ElectedAt(g', u) <==> ElectedAt(g, u)) {
      VoteReplyOther(g, a, peer, r, u);
    }
    assert LeadersElected(g) ==> ElectedAt(g, c);
    assert LeadersElected(g') ==> ElectedAt(g', c);
  }

  lemma VoteRoles(s: Server, a: VoteRequest)
    requires s.logs != []
    ensures RoleKept(s, HandleVote(s, a).0)
  {
  }

  lemma AppendRoles(s: Server, a: AppendArgs)
    requires 0 <= a.prevLogIndex
    ensures RoleKept(s, HandleAppend(s, a).0)
  {
    hide Merge, RunStart;
  }

  lemma AppendReplyRoles(s: Server, peer: nat, a: AppendArgs, r: AppendReply)
    requires CanHandleReply(s, peer, a, r)
    ensures RoleKept(s, HandleAppendReply(s, peer, a, r))
  {
    hide CommitUpTo, BackUp;
  }

  /** A step keeps every leader elected exactly when it is none of the two that
      `Sound` excludes. */
  lemma ElectedExactly(g: Cluster, step: Step)
    requires ElectionInv(g) && Campaigns(g)
    ensures Campaigns(Apply(g, step))
    ensures LeadersElected(g) ==> (LeadersElected(Apply(g, step)) <==> Sound(g, step))
  {
    hide ElectionInv, Campaigns, LeadersElected, HandleVote, HandleAppend, HandleAppendReply;
    if Enabled(g, step) {
      match step
      case TimeoutStep(v) => TimeoutRoles(g, v);
      case VoteStep(v, a) => VoteRoles(g.servers[v], a); RoleMoves(g, DoVote(g, v, a), v);
      case VoteReplyStep(a, peer, r) => VoteReplyRoles(g, a, peer, r);
      case StartStep(v, command) => RoleMoves(g, DoStart(g, v, command), v);
      case SendStep(v, peer) => RoleMoves(g, DoSend(g, v, peer), v);
      case AppendStep(sent) => AppendRoles(g.servers[sent.to], sent.args); RoleMoves(g, DoAppend(g, sent), sent.to);
      case AppendReplyStep(sent, r) =>
        AppendReplyRoles(g.servers[sent.args.leader], sent.to, sent.args, r);
        RoleMoves(g, DoAppendReply(g, sent, r), sent.args.leader);
      case CrashStep(v) => RoleMoves(g, DoCrash(g, v), v);
    }
  }

  /** Every step of the run is sound in the state it is taken in. */
  ghost predicate SoundRun(n: nat, steps: seq<Step>) {
    forall k :: 0 <= k < |steps| ==> Sound(Run(n, steps[..k]), steps[k])
  }

  lemma {:induction false} RunCampaigns(n: nat, steps: seq<Step>)
    ensures Campaigns(Run(n, steps))
    ensures SoundRun(n, steps) ==> LeadersElected(Run(n, steps))
  {
    if steps != [] {
      var k := |steps| - 1;
      RunCampaigns(n, steps[..k]);
      RunElection(n, steps[..k]);
      ElectedExactly(Run(n, steps[..k]), steps[k]);
      if SoundRun(n, steps) {
        forall j | 0 <= j < k ensures Sound(Run(n, steps[..k][..j]), steps[..k][j]) {
          assert steps[..k][..j] == steps[..j];
        }
      }
    }
  }

  /** In a sound run two leaders of the same term are the same server. */
  lemma OneLeaderPerTerm(n: nat, steps: seq<Step>, a: nat, b: nat)
    requires SoundRun(n, steps) && a < n && b < n
    requires var g := Run(n, steps); |g.servers| == n && g.servers[a].role.Leader? && g.servers[b].role.Leader?
                                     && g.servers[a].currentTerm == g.servers[b].currentTerm
    ensures a == b
  {
    hide Run, ElectionInv, Campaigns;
    var g := Run(n, steps);
    RunCampaigns(n, steps);
    RunElection(n, steps);
    assert ElectedAt(g, a) && ElectedAt(g, b);
    OneWinner(g, a, b, g.servers[a].currentTerm);
  }

  // ----- whom a server votes for

  /** The log `h` is at least as up to date as `logs`: a later last term, or the same
      and no shorter. */
  ghost predicate UpToDate(h: Log, logs: Log)
    requires h != [] && logs != []
  {
    LastTerm(h) > LastTerm(logs) || (LastTerm(h) == LastTerm(logs) && |h| >= |logs|)
  }

  /** The request describes the end of `h`. */
  predicate Describes(a: VoteRequest, h: Log) {
    h != [] && a.lastLogIndex == LastIndex(h) && a.lastLogTerm == LastTerm(h)
  }

  ghost predicate Held(g: Cluster, a: VoteRequest) {
    exists h :: h in g.histories && Describes(a, h)
  }

  /** All logs were recorded, and requests describe recorded logs. */
  ghost predicate RequestInv(g: Cluster) {
    && (forall v :: 0 <= v < |g.servers| ==> g.servers[v].logs in g.histories)
    && (forall a :: a in g.voteRequests ==> Held(g, a))
  }

  lemma RequestMoves(g: Cluster, g': Cluster, v: nat)
    requires RequestInv(g) && v < |g.servers| == |g'.servers| && g'.servers == g.servers[v := g'.servers[v]]
    requires g.histories <= g'.histories && g'.servers[v].logs in g'.histories
    requires forall a :: a in g'.voteRequests ==> a in g.voteRequests || Held(g', a)
    ensures RequestInv(g')
  {
    forall a | a in g'.voteRequests ensures Held(g', a) {
      if a in g.voteRequests {
        assert Held(g, a);
        var h :| h in g.histories && Describes(a, h);
        assert h in g'.histories;
      }
    }
  }

  lemma RequestStep(g: Cluster, step: Step)
    requires ElectionInv(g) && RequestInv(g)
    ensures RequestInv(Apply(g, step))
  {
    hide ElectionInv, RequestInv, HandleAppend;
    if Enabled(g, step) {
      match step
      case TimeoutStep(v) => LogHeld(g, v); TimeoutRequest(g, v);
      case VoteStep(v, a) => LogHeld(g, v); RequestMoves(g, DoVote(g, v, a), v);
      case VoteReplyStep(a, peer, r) =>
        LogHeld(g, a.candidate);
        RequestMoves(g, DoVoteReply(g, a, peer, r), a.candidate);
      case StartStep(v, command) => RequestMoves(g, DoStart(g, v, command), v);
      case SendStep(v, peer) => LogHeld(g, v); RequestMoves(g, DoSend(g, v, peer), v);
      case AppendStep(sent) => RequestMoves(g, DoAppend(g, sent), sent.to);
      case AppendReplyStep(sent, r) =>
        LogHeld(g, sent.args.leader);
        RequestMoves(g, DoAppendReply(g, sent, r), sent.args.leader);
      case CrashStep(v) => LogHeld(g, v); ServerAt(g, v); RequestMoves(g, DoCrash(g, v), v);
    }
  }

  lemma LogHeld(g: Cluster, v: nat)
    requires RequestInv(g) && v < |g.servers|
    ensures g.servers[v].logs in g.histories
  {
  }

  lemma TimeoutRequest(g: Cluster, v: nat)
    requires RequestInv(g) && Enabled(g, TimeoutStep(v)) && g.servers[v].logs in g.histories
    ensures RequestInv(DoTimeout(g, v))
  {
    hide RequestInv;
    var g' := DoTimeout(g, v);
    assert Describes(RequestOf(g'.servers[v]), g.servers[v].logs);
    RequestMoves(g, g', v);
  }

  lemma {:induction false} RunRequests(n: nat, steps: seq<Step>)
    ensures RequestInv(Run(n, steps))
  {
    if steps != [] {
      var k := |steps| - 1;
      RunRequests(n, steps[..k]);
      RunElection(n, steps[..k]);
      hide ElectionInv, RequestInv, Apply;
      RequestStep(Run(n, steps[..k]), steps[k]);
    }
  }

  /** In every run, a vote goes only to a candidate that asked with a log at least as
      up to date as the voter's, in a term the voter has not passed. */
  lemma VotesForUpToDate(n: nat, steps: seq<Step>, v: nat, a: VoteRequest)
    requires Enabled(Run(n, steps), VoteStep(v, a)) && HandleVote(Run(n, steps).servers[v], a).1.granted
    ensures var g := Run(n, steps);
      && a.term >= g.servers[v].currentTerm
      && exists h :: h in g.histories && Describes(a, h) && UpToDate(h, g.servers[v].logs)
  {
    RunRequests(n, steps);
    hide Run;
    var g := Run(n, steps);
    assert Held(g, a);
    var h :| h in g.histories && Describes(a, h);
    assert UpToDate(h, g.servers[v].logs);
  }
}
