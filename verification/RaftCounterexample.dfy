/**
 What this code does not promise about leaders, as concrete runs of three servers:
 two leaders of one term, whose logs then differ at an index where their terms
 agree; and a leader whose next append would index its log out of bounds.
 */
module RaftCounterexample {
  import opened Common
  import opened RaftServer
  import opened RaftCluster
  import opened RaftElection
  import opened RaftReplication
  import opened RaftCommit
  import opened RaftScenario

  // ----- two leaders of one term

  const EARLY_ASK := VoteRequest(1, 0, 0, 0)

  /** Server 0 has asked in terms 1 and 2; server 1 voted for it in term 1, and in term
      2 for server 2, which won; the vote of term 1 is still on its way. */
  lemma BeforeLateVote() returns (x: Scene)
    ensures Reached(x) && |x.g.servers| == 3 && Open(x.g, 0, 1) && (EARLY_ASK, 1, VoteReply(1, true)) in x.g.voteReplies
    ensures x.g.servers[0] == At(0, Candidate, 2, 0, [SENTINEL], 0, ONES, ZEROS)
    ensures x.g.servers[2] == At(2, Leader, 2, 2, [SENTINEL], 0, ONES, ZEROS)
  {
    hide Reached, Open, Peers;
    Fresh(0);
    Fresh(1);
    Fresh(2);
    x := Opening();
    x := Wait(x, 0);
    VoteGiven(x.g.servers[1], EARLY_ASK);
    x := VoteKeepsOpen(x, 1, EARLY_ASK, 0, 1);
    var before := x.g;
    x := Wait(x, 0);
    OpenLater(before, x.g, 0, 1, (0, 2));
    before := x.g;
    x := Wait(x, 2);
    OpenLater(before, x.g, 0, 1, (2, 1));
    before := x.g;
    x := Win(x, 2);
    OpenLater(before, x.g, 0, 1, (2, 2));
  }

  lemma VoteKeepsOpen(x: Scene, v: nat, a: VoteRequest, c: nat, term: int) returns (x': Scene)
    requires Reached(x) && |x.g.servers| == 3 && v < 3 && v != a.candidate
    requires a in x.g.voteRequests && x.g.servers[v].logs != [] && Open(x.g, c, term)
    ensures var (s, r) := HandleVote(x.g.servers[v], a);
      && Reached(x') && Kept(x.g, x'.g) && x'.g.servers == x.g.servers[v := s]
      && Open(x'.g, c, term) && (a, v, r) in x'.g.voteReplies
  {
    hide HandleVote;
    x' := Vote(x, v, a);
  }

  lemma OpenLater(g: Cluster, g': Cluster, c: nat, term: int, k: (nat, int))
    requires Open(g, c, term) && OthersWait(g, g', k) && k != (c, term)
    ensures Open(g', c, term)
  {
  }

  lemma LateVote() returns (steps: seq<Step>, g: Cluster)
    ensures g == Run(3, steps) && |g.servers| == 3
    ensures g.servers[0] == At(0, Leader, 2, 0, [SENTINEL], 0, ONES, ZEROS)
    ensures g.servers[2] == At(2, Leader, 2, 2, [SENTINEL], 0, ONES, ZEROS)
  {
    var x := BeforeLateVote();
    hide Run, Open;
    var step := VoteReplyStep(EARLY_ASK, 1, VoteReply(1, true));
    VoteWins(x.g, EARLY_ASK);
    RunOneMore(3, x.steps, step);
    FillThree(0);
    FillThree(1);
    steps, g := x.steps + [step], Apply(x.g, step);
  }

  /** Two leaders of the same term. */
  lemma TwoLeaders() returns (steps: seq<Step>)
    ensures var g := Run(3, steps);
      && |g.servers| == 3 && g.servers[0].role.Leader? && g.servers[2].role.Leader?
      && g.servers[0].currentTerm == g.servers[2].currentTerm
  {
    hide Run;
    var g;
    steps, g := LateVote();
  }

  /** Both get a command: two logs whose entries at index 1 have the same term and differ. */
  lemma LogsDisagree() returns (steps: seq<Step>)
    ensures var g := Run(3, steps);
      && |g.servers| == 3 && |g.servers[0].logs| == |g.servers[2].logs| == 2
      && g.servers[0].logs[1].term == g.servers[2].logs[1].term && g.servers[0].logs[1] != g.servers[2].logs[1]
  {
    hide Run;
    var before, g := LateVote();
    RunOneMore(3, before, StartStep(0, 1));
    RunOneMore(3, before + [StartStep(0, 1)], StartStep(2, 2));
    steps := before + [StartStep(0, 1)] + [StartStep(2, 2)];
  }

  // ----- a refusal that comes two terms late

  const ASKED := Sent(2, AppendArgs(1, 0, 0, 0, [], 0), [SENTINEL])
  const REFUSED := AppendReply(2, false, 0, 0)
  const LATER_ASK := VoteRequest(2, 2, 0, 0)

  /** Server 0 leads term 1; server 2, by then in term 2, refuses its append; server 0
      votes for server 2 and then leads term 3. */
  lemma BeforeLateRefusal() returns (x: Scene)
    ensures Reached(x) && |x.g.servers| == 3 && (ASKED, REFUSED) in x.g.appendReplies
    ensures x.g.servers[0] == At(0, Leader, 3, 0, [SENTINEL], 0, ONES, ZEROS)
  {
    hide Reached, Open, OthersWait;
    Fresh(0);
    Fresh(1);
    Fresh(2);
    x := Opening();
    x := Win(x, 0);
    assert NextSent(x.g, 0, 2) == ASKED;
    x := Send(x, 0, 2);
    x := Wait(x, 2);
    x := Wait(x, 2);
    assert HandleAppend(x.g.servers[2], ASKED.args) == (x.g.servers[2], REFUSED);
    x := Receive(x, ASKED);
    assert RequestOf(x.g.servers[2]) == LATER_ASK;
    x := Vote(x, 0, LATER_ASK);
    assert x.g.servers[0] == At(0, Follower, 2, 2, [SENTINEL], 0, ONES, ZEROS);
    x := Win(x, 0);
  }

  /** The late refusal leaves a leader that cannot build its next append: it would read
      the entry before the first. */
  lemma LateRefusal() returns (steps: seq<Step>)
    ensures SoundRun(3, steps) && InTermRun(3, steps) && Enabled(Run(3, steps), AppendReplyStep(ASKED, REFUSED))
    ensures var g' := DoAppendReply(Run(3, steps), ASKED, REFUSED);
      |g'.servers| == 3 && g'.servers[0].role.Leader? && !CanBuild(g'.servers[0], 2)
  {
    hide Run, SoundRun, InTermRun;
    var x := BeforeLateRefusal();
    steps := x.steps;
    LateBackUp(x.g.servers[0]);
  }

  lemma LateBackUp(s: Server)
    requires s == At(0, Leader, 3, 0, [SENTINEL], 0, ONES, ZEROS)
    ensures CanHandleReply(s, 2, ASKED.args, REFUSED)
    ensures var s' := HandleAppendReply(s, 2, ASKED.args, REFUSED); s'.role.Leader? && s'.nextIndex == [1, 1, 0]
  {
  }
}
