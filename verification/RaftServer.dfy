/**
 One Raft server as a value: its state, its messages, and what each critical
 section under `rf.mu` does to the state (raft/raft.go,
 raft/raft_leader_election.go, raft/raft_log_replication.go,
 raft/raft_snapshot.go).
 */
module RaftServer {
  import opened Common

  datatype Role = Follower | Candidate | Leader

  /** Commands are copied and never inspected. */
  type Command = int

  datatype LogEntry = LogEntry(command: Command, term: int)

  type Log = seq<LogEntry>

  datatype Persisted = Persisted(term: int, votedFor: int, logs: Log)

  datatype Server = Server(
    me: nat, role: Role, currentTerm: int, votedFor: int, logs: Log, commitIndex: int,
    nextIndex: seq<int>, matchIndex: seq<int>, saved: Option<Persisted>)

  datatype VoteRequest = VoteRequest(term: int, candidate: nat, lastLogIndex: int, lastLogTerm: int)
  datatype VoteReply = VoteReply(term: int, granted: bool)

  datatype AppendArgs = AppendArgs(
    term: int, leader: nat, prevLogIndex: int, prevLogTerm: int, entries: Log, leaderCommit: int)
  datatype AppendReply = AppendReply(term: int, success: bool, conflictTerm: int, conflictIndex: int)

  /** The log starts with an empty entry of term 0 at index 0. */
  const SENTINEL := LogEntry(0, 0)

  // ----- saving and restoring

  function Save(s: Server): Persisted {
    Persisted(s.currentTerm, s.votedFor, s.logs)
  }

  function Persist(s: Server): Server {
    s.(saved := Some(Save(s)))
  }

  function Fill(n: nat, x: int): (r: seq<int>)
    ensures |r| == n && forall i :: 0 <= i < n ==> r[i] == x
  {
    seq(n, i => x)
  }

  /** A server made from what was saved, if anything (`Make`). */
  function Boot(me: nat, peers: nat, saved: Option<Persisted>): Server {
    var p := if saved.Some? then saved.value else Persisted(0, -1, [SENTINEL]);
    Server(me, Follower, p.term, p.votedFor, p.logs, 0, Fill(peers, 1), Fill(peers, 0), saved)
  }

  function Restart(s: Server): Server {
    Boot(s.me, |s.nextIndex|, s.saved)
  }

  // ----- elections

  /** Adopt a higher term and become a follower.  A server that already is one
      keeps its old vote. */
  function StepDown(s: Server, term: int): Server {
    if s.role.Follower? then s.(currentTerm := term)
    else s.(currentTerm := term, role := Follower, votedFor := -1)
  }

  function Adopt(s: Server, term: int): Server {
    if term > s.currentTerm then StepDown(s, term) else s
  }

  function LastIndex(logs: Log): int { |logs| - 1 }

  function LastTerm(logs: Log): int
    requires logs != []
  {
    logs[|logs| - 1].term
  }

  /** The receiver's log is ahead of the candidate's. */
  predicate MoreUpToDate(logs: Log, a: VoteRequest)
    requires logs != []
  {
    a.lastLogTerm < LastTerm(logs) || (a.lastLogTerm == LastTerm(logs) && a.lastLogIndex < LastIndex(logs))
  }

  function HandleVote(s: Server, a: VoteRequest): (Server, VoteReply)
    requires s.logs != []
  {
    if a.term < s.currentTerm || (a.term == s.currentTerm && s.votedFor != -1 && s.votedFor != a.candidate) then
      (Persist(s), VoteReply(s.currentTerm, false))
    else
      var s1 := Adopt(s, a.term);
      if MoreUpToDate(s1.logs, a) then (Persist(s1), VoteReply(s1.currentTerm, false))
      else (Persist(s1.(votedFor := a.candidate)), VoteReply(s1.currentTerm, true))
  }

  /** The election timer fires: a follower becomes a candidate; in every role,
      also the leader's, a new election begins. */
  function Timeout(s: Server): Server {
    var s1 := if s.role.Follower? then s.(role := Candidate) else s;
    Persist(s1.(currentTerm := s1.currentTerm + 1, votedFor := s1.me))
  }

  function RequestOf(s: Server): VoteRequest
    requires s.logs != []
  {
    VoteRequest(s.currentTerm, s.me, LastIndex(s.logs), LastTerm(s.logs))
  }

  function BecomeLeader(s: Server): Server {
    if s.role.Leader? then s
    else s.(role := Leader, nextIndex := Fill(|s.nextIndex|, |s.logs|), matchIndex := Fill(|s.matchIndex|, 0))
  }

  /** A vote is counted only by a candidate; whether the election the vote was
      for is still the current one is not looked at. */
  predicate Counts(s: Server, r: VoteReply) {
    r.granted && s.role.Candidate?
  }

  /** `votes` is the number of votes of that election, this one included. */
  function HandleVoteReply(s: Server, r: VoteReply, votes: int): Server {
    if Counts(s, r) then (if votes > |s.nextIndex| / 2 then BecomeLeader(s) else s)
    else if r.term > s.currentTerm then Persist(StepDown(s, r.term))
    else s
  }

  // ----- log replication

  function StartCommand(s: Server, command: Command): Server
    requires s.me < |s.nextIndex| == |s.matchIndex|
  {
    if !s.role.Leader? then s
    else
      var index := |s.logs|;
      Persist(s.(logs := s.logs + [LogEntry(command, s.currentTerm)],
                 matchIndex := s.matchIndex[s.me := index], nextIndex := s.nextIndex[s.me := index + 1]))
  }

  predicate CanBuild(s: Server, peer: nat) {
    peer < |s.nextIndex| && 1 <= s.nextIndex[peer] <= |s.logs|
  }

  function BuildAppend(s: Server, peer: nat): AppendArgs
    requires CanBuild(s, peer)
  {
    var prev := s.nextIndex[peer] - 1;
    AppendArgs(s.currentTerm, s.me, prev, s.logs[prev].term, s.logs[prev + 1..], s.commitIndex)
  }

  /** First index of the run of equal terms that ends at `i`. */
  function RunStart(logs: Log, i: nat): (r: nat)
    requires i < |logs|
    ensures r <= i && logs[r].term == logs[i].term
  {
    if i == 0 || logs[i - 1].term != logs[i].term then i else RunStart(logs, i - 1)
  }

  /** First position in `entries`, from `k` on, that the log lacks or holds with
      another term; -1 if there is none. */
  function FirstUnmatched(logs: Log, prev: nat, entries: Log, k: nat): (r: int)
    requires k <= |entries| && prev + 1 + k <= |logs|
    ensures r == -1 || (k <= r < |entries| && prev + 1 + r <= |logs|)
    decreases |entries| - k
  {
    if k == |entries| then -1
    else if |logs| - 1 < prev + 1 + k || logs[prev + 1 + k].term != entries[k].term then k
    else FirstUnmatched(logs, prev, entries, k + 1)
  }

  /** Drop from the first unmatched entry on and append the rest of `entries`. */
  function Merge(logs: Log, prev: nat, entries: Log): Log
    requires prev < |logs|
  {
    var u := FirstUnmatched(logs, prev, entries, 0);
    if u == -1 then logs else logs[..prev + 1 + u] + entries[u..]
  }

  function FollowCommit(s: Server, leaderCommit: int): Server {
    if leaderCommit > s.commitIndex then
      s.(commitIndex := if leaderCommit <= LastIndex(s.logs) then leaderCommit else LastIndex(s.logs))
    else s
  }

  /** The entries a commit up to `commit` makes due for delivery. */
  function Unapplied(logs: Log, lastApplied: int, commit: int): Log {
    if 0 <= lastApplied < commit < |logs| then logs[lastApplied + 1..commit + 1] else []
  }

  /** The part of the handler that runs once the previous entry matches. */
  function Accept(s: Server, a: AppendArgs): Server
    requires 0 <= a.prevLogIndex < |s.logs|
  {
    FollowCommit(s.(logs := Merge(s.logs, a.prevLogIndex, a.entries)), a.leaderCommit)
  }

  function HandleAppend(s: Server, a: AppendArgs): (Server, AppendReply)
    requires 0 <= a.prevLogIndex
  {
    if a.term < s.currentTerm then (Persist(s), AppendReply(s.currentTerm, false, 0, 0))
    else
      var s1 := Adopt(s, a.term);
      if LastIndex(s1.logs) < a.prevLogIndex then
        (Persist(s1), AppendReply(s1.currentTerm, false, -1, LastIndex(s1.logs) + 1))
      else if s1.logs[a.prevLogIndex].term != a.prevLogTerm then
        (Persist(s1),
         AppendReply(s1.currentTerm, false, s1.logs[a.prevLogIndex].term, RunStart(s1.logs, a.prevLogIndex)))
      else
        (Persist(Accept(s1, a)), AppendReply(0, true, 0, 0))
  }

  function Count(m: seq<int>, i: int): nat {
    if m == [] then 0 else Count(m[..|m| - 1], i) + if m[|m| - 1] >= i then 1 else 0
  }

  /** The largest index in (low, i] stored by a majority, or `low`. */
  function CommitUpTo(m: seq<int>, low: int, i: int): int
    decreases i - low
  {
    if i <= low then low
    else if Count(m, i) > |m| / 2 then i
    else CommitUpTo(m, low, i - 1)
  }

  /** The largest i in 1..prev with term `t` at i - 1, or `other`. */
  function AfterTerm(logs: Log, t: int, i: int, other: int): int
    requires i <= |logs|
    decreases i
  {
    if i < 1 then other
    else if logs[i - 1].term == t then i
    else AfterTerm(logs, t, i - 1, other)
  }

  function BackUp(logs: Log, prev: int, r: AppendReply): int
    requires r.conflictTerm != -1 ==> prev <= |logs|
  {
    if r.conflictTerm == -1 then r.conflictIndex else AfterTerm(logs, r.conflictTerm, prev, r.conflictIndex)
  }

  /** The reply makes its receiver look for the conflicting term in its own log. */
  predicate Scans(s: Server, r: AppendReply) {
    !r.success && r.term <= s.currentTerm && r.conflictTerm != -1
  }

  predicate CanHandleReply(s: Server, peer: nat, a: AppendArgs, r: AppendReply) {
    peer < |s.nextIndex| == |s.matchIndex| && (Scans(s, r) ==> a.prevLogIndex <= |s.logs|)
  }

  /** The reply is handled whatever role and term the server now has. */
  function HandleAppendReply(s: Server, peer: nat, a: AppendArgs, r: AppendReply): Server
    requires CanHandleReply(s, peer, a, r)
  {
    if r.success then
      var m := a.prevLogIndex + |a.entries|;
      var s1 := s.(matchIndex := s.matchIndex[peer := m], nextIndex := s.nextIndex[peer := m + 1]);
      s1.(commitIndex := CommitUpTo(s1.matchIndex, s1.commitIndex, LastIndex(s1.logs)))
    else if r.term > s.currentTerm then Persist(StepDown(s, r.term))
    else s.(nextIndex := s.nextIndex[peer := BackUp(s.logs, a.prevLogIndex, r)])
  }
}
