/**
 A cluster of Raft servers over a network that loses, delays, reorders and
 repeats messages, with crashes.  Each critical section under `rf.mu` is one
 step.  Message sets only grow: a message not acted upon is lost or late.
 */
module RaftCluster {
  import opened Common
  import opened RaftServer

  /** One call of `startElection`: its vote counter, whose votes were counted, and
      which goroutines still wait for a reply. */
  datatype Election = Election(votes: int, counted: set<nat>, pending: set<nat>)

  /** An append on its way; `log` remembers the sender's whole log. */
  datatype Sent = Sent(to: nat, args: AppendArgs, log: Log)

  datatype Cluster = Cluster(
    servers: seq<Server>,
    elections: map<(nat, int), Election>,              // by candidate and term
    voteRequests: set<VoteRequest>,
    voteReplies: set<(VoteRequest, nat, VoteReply)>,   // with the replying server
    appends: set<Sent>,
    appendReplies: set<(Sent, AppendReply)>,
    // what happened so far
    grants: set<(nat, int, nat)>,                      // voter, term, candidate
    led: set<(nat, int)>,                              // server, term it became leader in
    histories: set<Log>,                               // logs held at some time
    acked: map<(int, nat), int>,                       // term, server -> highest index accepted
    held: set<(nat, int, Log)>)                        // server, term, log after accepting an append of that term

  datatype Step =
    | TimeoutStep(v: nat)
    | VoteStep(v: nat, request: VoteRequest)
    | VoteReplyStep(request: VoteRequest, peer: nat, voteReply: VoteReply)
    | StartStep(v: nat, command: Command)
    | SendStep(v: nat, peer: nat)
    | AppendStep(sent: Sent)
    | AppendReplyStep(sent: Sent, appendReply: AppendReply)
    | CrashStep(v: nat)

  /** The servers below `n` other than `v`. */
  function Peers(n: nat, v: nat): (r: set<nat>)
    ensures forall p: nat :: p in r <==> p < n && p != v
  {
    if n == 0 then {} else Peers(n - 1, v) + if n - 1 == v then {} else {n - 1}
  }

  function InitServers(n: nat): (r: seq<Server>)
    ensures |r| == n && forall i :: 0 <= i < n ==> r[i] == Boot(i, n, None)
  {
    seq(n, i requires 0 <= i < n => Boot(i, n, None))
  }

  function Init(n: nat): Cluster {
    Cluster(InitServers(n), map[], {}, {}, {}, {}, {}, {}, {[SENTINEL]}, map[], {})
  }

  /** A handler that would panic ends its process: that is a crash, not this step. */
  predicate Enabled(g: Cluster, step: Step) {
    match step
    case TimeoutStep(v) => v < |g.servers| && g.servers[v].logs != []
    case VoteStep(v, request) =>
      v < |g.servers| && request in g.voteRequests && v != request.candidate && g.servers[v].logs != []
    case VoteReplyStep(request, peer, reply) =>
      && (request, peer, reply) in g.voteReplies && request.candidate < |g.servers|
      && (request.candidate, request.term) in g.elections
      && peer in g.elections[(request.candidate, request.term)].pending
    case StartStep(v, command) =>
      v < |g.servers| && g.servers[v].me < |g.servers[v].nextIndex| == |g.servers[v].matchIndex|
    case SendStep(v, peer) =>
      v < |g.servers| && peer < |g.servers| && peer != v && g.servers[v].role.Leader? && CanBuild(g.servers[v], peer)
    case AppendStep(sent) => sent in g.appends && sent.to < |g.servers| && 0 <= sent.args.prevLogIndex
    case AppendReplyStep(sent, reply) =>
      && (sent, reply) in g.appendReplies && sent.args.leader < |g.servers|
      && CanHandleReply(g.servers[sent.args.leader], sent.to, sent.args, reply)
    case CrashStep(v) => v < |g.servers|
  }

  function DoTimeout(g: Cluster, v: nat): Cluster
    requires Enabled(g, TimeoutStep(v))
  {
    var s := Timeout(g.servers[v]);
    g.(servers := g.servers[v := s],
       elections := g.elections[(v, s.currentTerm) := Election(1, {v}, Peers(|g.servers|, v))],
       voteRequests := g.voteRequests + {RequestOf(s)},
       grants := g.grants + {(v, s.currentTerm, v)})
  }

  function DoVote(g: Cluster, v: nat, a: VoteRequest): Cluster
    requires Enabled(g, VoteStep(v, a))
  {
    var (s, r) := HandleVote(g.servers[v], a);
    g.(servers := g.servers[v := s],
       voteReplies := g.voteReplies + {(a, v, r)},
       grants := g.grants + if r.granted then {(v, a.term, a.candidate)} else {})
  }

  /** The election after its goroutine for `peer` has handled a reply. */
  function Tally(e: Election, peer: nat, counts: bool): Election {
    if counts then Election(e.votes + 1, e.counted + {peer}, e.pending - {peer})
    else e.(pending := e.pending - {peer})
  }

  function DoVoteReply(g: Cluster, a: VoteRequest, peer: nat, r: VoteReply): Cluster
    requires Enabled(g, VoteReplyStep(a, peer, r))
  {
    var c := a.candidate;
    var s := g.servers[c];
    var e := Tally(g.elections[(c, a.term)], peer, Counts(s, r));
    var s' := HandleVoteReply(s, r, e.votes);
    g.(servers := g.servers[c := s'],
       elections := g.elections[(c, a.term) := e],
       led := g.led + if s'.role.Leader? && !s.role.Leader? then {(c, s'.currentTerm)} else {})
  }

  function DoStart(g: Cluster, v: nat, command: Command): Cluster
    requires Enabled(g, StartStep(v, command))
  {
    var s := StartCommand(g.servers[v], command);
    g.(servers := g.servers[v := s], histories := g.histories + {s.logs})
  }

  function DoSend(g: Cluster, v: nat, peer: nat): Cluster
    requires Enabled(g, SendStep(v, peer))
  {
    g.(appends := g.appends + {Sent(peer, BuildAppend(g.servers[v], peer), g.servers[v].logs)})
  }

  function Acked(acked: map<(int, nat), int>, term: int, v: nat): int {
    if (term, v) in acked then acked[(term, v)] else 0
  }

  function Raise(acked: map<(int, nat), int>, term: int, v: nat, i: int): map<(int, nat), int> {
    acked[(term, v) := Max(Acked(acked, term, v), i)]
  }

  function Max(a: int, b: int): int { if a < b then b else a }

  function DoAppend(g: Cluster, sent: Sent): Cluster
    requires Enabled(g, AppendStep(sent))
  {
    var a, v := sent.args, sent.to;
    var (s, r) := HandleAppend(g.servers[v], a);
    g.(servers := g.servers[v := s],
       appendReplies := g.appendReplies + {(sent, r)},
       histories := g.histories + {s.logs},
       acked := if r.success then Raise(g.acked, a.term, v, a.prevLogIndex + |a.entries|) else g.acked,
       held := if r.success then g.held + {(v, a.term, s.logs)} else g.held)
  }

  function DoAppendReply(g: Cluster, sent: Sent, r: AppendReply): Cluster
    requires Enabled(g, AppendReplyStep(sent, r))
  {
    var v := sent.args.leader;
    g.(servers := g.servers[v := HandleAppendReply(g.servers[v], sent.to, sent.args, r)])
  }

  /** The goroutines of a crashed server are gone with it. */
  function Abandon(elections: map<(nat, int), Election>, v: nat): map<(nat, int), Election> {
    map k | k in elections :: if k.0 == v then elections[k].(pending := {}) else elections[k]
  }

  function DoCrash(g: Cluster, v: nat): Cluster
    requires Enabled(g, CrashStep(v))
  {
    g.(servers := g.servers[v := Restart(g.servers[v])], elections := Abandon(g.elections, v))
  }

  /** A step that is not enabled changes nothing. */
  function Apply(g: Cluster, step: Step): Cluster {
    if !Enabled(g, step) then g
    else match step
      case TimeoutStep(v) => DoTimeout(g, v)
      case VoteStep(v, a) => DoVote(g, v, a)
      case VoteReplyStep(a, peer, r) => DoVoteReply(g, a, peer, r)
      case StartStep(v, command) => DoStart(g, v, command)
      case SendStep(v, peer) => DoSend(g, v, peer)
      case AppendStep(sent) => DoAppend(g, sent)
      case AppendReplyStep(sent, r) => DoAppendReply(g, sent, r)
      case CrashStep(v) => DoCrash(g, v)
  }

  /** The state of a cluster of `n` servers after some steps. */
  function Run(n: nat, steps: seq<Step>): Cluster {
    if steps == [] then Init(n) else Apply(Run(n, steps[..|steps| - 1]), steps[|steps| - 1])
  }
}
