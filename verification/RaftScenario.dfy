/**
 Moves from which concrete runs of three servers are put together.  Servers 0 and
 2 run for leader; server 1 votes.
 */
module RaftScenario {
  import opened Common
  import opened RaftServer
  import opened RaftCluster
  import opened RaftElection
  import opened RaftReplication
  import opened RaftCommit

  /** A run and where it leads. */
  datatype Scene = Scene(steps: seq<Step>, g: Cluster)

  /** So far all steps were sound and all replies handled in their term. */
  ghost predicate Reached(x: Scene) {
    x.g == Run(3, x.steps) && SoundRun(3, x.steps) && InTermRun(3, x.steps)
  }

  lemma RunOneMore(n: nat, steps: seq<Step>, step: Step)
    ensures Run(n, steps + [step]) == Apply(Run(n, steps), step)
  {
    assert (steps + [step])[..|steps|] == steps;
  }

  lemma Opening() returns (x: Scene)
    ensures Reached(x) && x.g == Init(3)
  {
    x := Scene([], Init(3));
  }

  lemma Then(x: Scene, step: Step) returns (x': Scene)
    requires Reached(x) && Sound(x.g, step) && InTerm(x.g, step)
    ensures Reached(x') && x' == Scene(x.steps + [step], Apply(x.g, step))
  {
    hide Sound, InTerm, Apply;
    RunOneMore(3, x.steps, step);
    hide Run;
    x' := Scene(x.steps + [step], Apply(x.g, step));
    var c := x'.steps;
    forall k | 0 <= k < |c| ensures Sound(Run(3, c[..k]), c[k]) && InTerm(Run(3, c[..k]), c[k]) {
      assert c[..k] == x.steps[..k];
      assert k == |x.steps| ==> c[..k] == x.steps;
    }
  }

  // ----- states

  /** A server that has saved everything. */
  function At(v: nat, role: Role, term: int, votedFor: int, logs: Log, commit: int,
              next: seq<int>, match': seq<int>): Server
  {
    Server(v, role, term, votedFor, logs, commit, next, match', Some(Persisted(term, votedFor, logs)))
  }

  const ONES := [1, 1, 1]
  const ZEROS := [0, 0, 0]

  lemma FillThree(x: int)
    ensures Fill(3, x) == [x, x, x]
  {
  }

  lemma Fresh(v: nat)
    ensures Boot(v, 3, None) == Server(v, Follower, 0, -1, [SENTINEL], 0, ONES, ZEROS, None)
  {
    FillThree(0);
    FillThree(1);
  }

  /** Messages and answers on their way stay. */
  ghost predicate Kept(g: Cluster, g': Cluster) {
    && g.voteRequests <= g'.voteRequests && g.voteReplies <= g'.voteReplies
    && g.appends <= g'.appends && g.appendReplies <= g'.appendReplies
  }

  /** Elections other than `k` stay as they are. */
  ghost predicate OthersWait(g: Cluster, g': Cluster, k: (nat, int)) {
    forall l :: l in g.elections && l != k ==> l in g'.elections && g'.elections[l] == g.elections[l]
  }

  /** An election in which nobody has voted but the candidate. */
  ghost predicate Open(g: Cluster, c: nat, term: int) {
    (c, term) in g.elections && g.elections[(c, term)] == Election(1, {c}, Peers(3, c))
  }

  // ----- elections

  lemma Wait(x: Scene, v: nat) returns (x': Scene)
    requires Reached(x) && |x.g.servers| == 3 && v < 3 && x.g.servers[v].me == v
    requires x.g.servers[v].logs != [] && !x.g.servers[v].role.Leader?
    ensures var s := Timeout(x.g.servers[v]);
      && Reached(x') && Kept(x.g, x'.g) && x'.g.servers == x.g.servers[v := s]
      && RequestOf(s) in x'.g.voteRequests && Open(x'.g, v, s.currentTerm)
      && OthersWait(x.g, x'.g, (v, s.currentTerm))
  {
    hide Reached, Peers;
    x' := Then(x, TimeoutStep(v));
  }

  lemma Vote(x: Scene, v: nat, a: VoteRequest) returns (x': Scene)
    requires Reached(x) && |x.g.servers| == 3 && v < 3 && v != a.candidate
    requires a in x.g.voteRequests && x.g.servers[v].logs != []
    ensures var (s, r) := HandleVote(x.g.servers[v], a);
      && Reached(x') && Kept(x.g, x'.g) && x'.g.servers == x.g.servers[v := s]
      && x'.g.elections == x.g.elections && (a, v, r) in x'.g.voteReplies
  {
    hide Reached, HandleVote;
    x' := Then(x, VoteStep(v, a));
  }

  /** A granted vote reaches a candidate whose election is open. */
  lemma VoteWins(g: Cluster, a: VoteRequest)
    requires |g.servers| == 3 && a.candidate < 3 && a.candidate != 1 && (a, 1, VoteReply(a.term, true)) in g.voteReplies
    requires Open(g, a.candidate, a.term) && g.servers[a.candidate].role.Candidate?
    requires |g.servers[a.candidate].nextIndex| == 3
    ensures var step := VoteReplyStep(a, 1, VoteReply(a.term, true));
      && Enabled(g, step) && Kept(g, Apply(g, step)) && OthersWait(g, Apply(g, step), (a.candidate, a.term))
      && Apply(g, step).servers == g.servers[a.candidate := BecomeLeader(g.servers[a.candidate])]
      && (g.servers[a.candidate].currentTerm == a.term ==> Sound(g, step))
  {
    hide BecomeLeader;
  }

  lemma LeaderAt(s: Server)
    requires !s.role.Leader? && |s.nextIndex| == |s.matchIndex| == 3
    ensures var l := |s.logs|;
      BecomeLeader(Timeout(s)) == At(s.me, Leader, s.currentTerm + 1, s.me, s.logs, s.commitIndex, [l, l, l], ZEROS)
  {
    FillThree(|s.logs|);
    FillThree(0);
  }

  /** Server 1, a follower, gives its vote in a new term. */
  lemma VoteGiven(p: Server, a: VoteRequest)
    requires p.role.Follower? && p.logs != [] && p.currentTerm < a.term && !MoreUpToDate(p.logs, a)
    ensures HandleVote(p, a) ==
      (Persist(p.(currentTerm := a.term, votedFor := a.candidate)), VoteReply(a.term, true))
  {
  }

  ghost predicate Electable(g: Cluster, c: nat) {
    && |g.servers| == 3 && (c == 0 || c == 2) && g.servers[c].me == c && !g.servers[c].role.Leader?
    && |g.servers[c].nextIndex| == |g.servers[c].matchIndex| == 3
    && g.servers[c].logs != [] && g.servers[1].logs != [] && g.servers[1].role.Follower?
    && g.servers[1].currentTerm <= g.servers[c].currentTerm
    && !MoreUpToDate(g.servers[1].logs, RequestOf(Timeout(g.servers[c])))
  }

  /** Server `c` times out and wins with the vote of server 1. */
  lemma Win(x: Scene, c: nat) returns (x': Scene)
    requires Reached(x) && Electable(x.g, c)
    ensures var s, p, l := x.g.servers[c], x.g.servers[1], |x.g.servers[c].logs|;
      var t := s.currentTerm + 1;
      && Reached(x') && Kept(x.g, x'.g) && RequestOf(Timeout(s)) in x'.g.voteRequests
      && OthersWait(x.g, x'.g, (c, t))
      && x'.g.servers == x.g.servers[c := At(c, Leader, t, c, s.logs, s.commitIndex, [l, l, l], ZEROS)]
                                    [1 := Persist(p.(currentTerm := t, votedFor := c))]
  {
    hide Reached, MoreUpToDate, HandleVote, HandleVoteReply, BecomeLeader, Sound, InTerm, Open;
    var s := x.g.servers[c];
    var a := RequestOf(Timeout(s));
    LeaderAt(s);
    VoteGiven(x.g.servers[1], a);
    var x1 := Wait(x, c);
    var x2 := Vote(x1, 1, a);
    OpenStill(x1.g, x2.g, c, a.term);
    VoteWins(x2.g, a);
    NotReply(x2.g, VoteReplyStep(a, 1, VoteReply(a.term, true)));
    x' := Then(x2, VoteReplyStep(a, 1, VoteReply(a.term, true)));
  }

  lemma OpenStill(g: Cluster, g': Cluster, c: nat, term: int)
    requires Open(g, c, term) && g'.elections == g.elections
    ensures Open(g', c, term)
  {
  }

  lemma NotReply(g: Cluster, step: Step)
    requires !step.AppendReplyStep?
    ensures InTerm(g, step)
  {
  }

  /** A leader hears of a later term from a candidate it does not vote for. */
  lemma Fall(x: Scene, v: nat, a: VoteRequest) returns (x': Scene)
    requires Reached(x) && |x.g.servers| == 3 && v < 3 && v != a.candidate && a in x.g.voteRequests
    requires var s := x.g.servers[v];
      s.role.Leader? && s.logs != [] && a.term > s.currentTerm && MoreUpToDate(s.logs, a)
    ensures Reached(x') && Kept(x.g, x'.g)
    ensures var s := x.g.servers[v];
      x'.g.servers == x.g.servers[v := Persist(s.(currentTerm := a.term, role := Follower, votedFor := -1))]
  {
    hide Reached;
    x' := Vote(x, v, a);
  }

  // ----- replication

  lemma StartAt(s: Server, command: Command)
    requires s.role.Leader? && s.me < |s.nextIndex| == |s.matchIndex|
    ensures StartCommand(s, command) ==
      At(s.me, Leader, s.currentTerm, s.votedFor, s.logs + [LogEntry(command, s.currentTerm)], s.commitIndex,
         s.nextIndex[s.me := |s.logs| + 1], s.matchIndex[s.me := |s.logs|])
  {
  }

  lemma Go(x: Scene, v: nat, command: Command) returns (x': Scene)
    requires Reached(x) && |x.g.servers| == 3 && v < 3 && x.g.servers[v].me == v && x.g.servers[v].role.Leader?
    requires |x.g.servers[v].nextIndex| == |x.g.servers[v].matchIndex| == 3
    ensures Reached(x') && Kept(x.g, x'.g)
    ensures var s := x.g.servers[v];
      x'.g.servers == x.g.servers[v :=
        At(v, Leader, s.currentTerm, s.votedFor, s.logs + [LogEntry(command, s.currentTerm)], s.commitIndex,
           s.nextIndex[v := |s.logs| + 1], s.matchIndex[v := |s.logs|])]
  {
    hide Reached;
    StartAt(x.g.servers[v], command);
    x' := Then(x, StartStep(v, command));
  }

  /** The append `v` would send to `p` now. */
  function NextSent(g: Cluster, v: nat, p: nat): Sent
    requires v < |g.servers| && CanBuild(g.servers[v], p)
  {
    Sent(p, BuildAppend(g.servers[v], p), g.servers[v].logs)
  }

  lemma Send(x: Scene, v: nat, p: nat) returns (x': Scene)
    requires Reached(x) && |x.g.servers| == 3 && v < 3 && p < 3 && v != p
    requires x.g.servers[v].role.Leader? && CanBuild(x.g.servers[v], p)
    ensures Reached(x') && Kept(x.g, x'.g) && x'.g.servers == x.g.servers && NextSent(x.g, v, p) in x'.g.appends
  {
    hide Reached;
    x' := Then(x, SendStep(v, p));
  }

  lemma Receive(x: Scene, m: Sent) returns (x': Scene)
    requires Reached(x) && |x.g.servers| == 3 && m in x.g.appends && m.to < 3 && 0 <= m.args.prevLogIndex
    ensures var (s, r) := HandleAppend(x.g.servers[m.to], m.args);
      Reached(x') && Kept(x.g, x'.g) && x'.g.servers == x.g.servers[m.to := s] && (m, r) in x'.g.appendReplies
  {
    hide Reached, HandleAppend;
    x' := Then(x, AppendStep(m));
  }

  /** A reply is handled while its receiver leads the term it answers. */
  lemma Hear(x: Scene, m: Sent, r: AppendReply) returns (x': Scene)
    requires Reached(x) && Enabled(x.g, AppendReplyStep(m, r)) && Leads(x.g, m.args.leader, m.args.term)
    ensures var v := m.args.leader;
      && Reached(x') && Kept(x.g, x'.g)
      && x'.g.servers == x.g.servers[v := HandleAppendReply(x.g.servers[v], m.to, m.args, r)]
  {
    hide Reached, HandleAppendReply;
    x' := Then(x, AppendReplyStep(m, r));
  }

  /** An append of `v` reaches `p`; the answer is on its way. */
  lemma Give(x: Scene, v: nat, p: nat) returns (x': Scene)
    requires Reached(x) && |x.g.servers| == 3 && v < 3 && p < 3 && v != p
    requires x.g.servers[v].role.Leader? && CanBuild(x.g.servers[v], p)
    ensures var m := NextSent(x.g, v, p);
      var (s, r) := HandleAppend(x.g.servers[p], m.args);
      Reached(x') && Kept(x.g, x'.g) && x'.g.servers == x.g.servers[p := s] && (m, r) in x'.g.appendReplies
  {
    hide Reached, HandleAppend;
    var x1 := Send(x, v, p);
    x' := Receive(x1, NextSent(x.g, v, p));
  }

  /** An append of `v` reaches `p`, and `v` hears the answer. */
  lemma Ask(x: Scene, v: nat, p: nat) returns (x': Scene)
    requires Reached(x) && |x.g.servers| == 3 && v < 3 && p < 3 && v != p
    requires x.g.servers[v].me == v && x.g.servers[v].role.Leader? && CanBuild(x.g.servers[v], p)
    requires var m := NextSent(x.g, v, p);
      CanHandleReply(x.g.servers[v], p, m.args, HandleAppend(x.g.servers[p], m.args).1)
    ensures Reached(x') && Kept(x.g, x'.g)
    ensures var m := NextSent(x.g, v, p);
      var (s, r) := HandleAppend(x.g.servers[p], m.args);
      x'.g.servers == x.g.servers[p := s][v := HandleAppendReply(x.g.servers[v], p, m.args, r)]
  {
    hide Reached, HandleAppend, HandleAppendReply;
    var m := NextSent(x.g, v, p);
    var x1 := Give(x, v, p);
    x' := Hear(x1, m, HandleAppend(x.g.servers[p], m.args).1);
  }
}
