/**
 What a message does to the server that handles it, said without the handlers: for
 every server and every message, in any state (raft/raft_leader_election.go:60-144,
 raft/raft_log_replication.go:29-225, raft/raft.go:102-183).
 */
module RaftOutcome {
  import opened Common
  import opened RaftServer
  import opened RaftCluster
  import opened RaftElection
  import opened RaftLogShape
  import opened RaftCommit

  /** What is saved is what the server now has. */
  ghost predicate AllSaved(s: Server) {
    s.saved == Some(Persisted(s.currentTerm, s.votedFor, s.logs))
  }

  /** All but the role, the term, the vote and what is saved. */
  ghost predicate SameLogAndIndices(s: Server, s': Server) {
    && s'.me == s.me && s'.logs == s.logs && s'.commitIndex == s.commitIndex
    && s'.nextIndex == s.nextIndex && s'.matchIndex == s.matchIndex
  }

  /** The larger of both terms; a higher one makes a follower of anybody. */
  ghost predicate Follows(s: Server, s': Server, term: int) {
    && s'.currentTerm == Max(s.currentTerm, term)
    && s'.role == if term > s.currentTerm then Follower else s.role
  }

  /** The vote after hearing of `term`: only a server that was no follower forgets it. */
  ghost function VoteLeft(s: Server, term: int): int {
    if term > s.currentTerm && !s.role.Follower? then -1 else s.votedFor
  }

  // ----- elections

  /** The voter may still vote for the candidate in the term asked for. */
  ghost predicate Free(s: Server, a: VoteRequest) {
    a.term == s.currentTerm ==> s.votedFor == -1 || s.votedFor == a.candidate
  }

  /** The last entry described is of a later term than the voter's, or of the same term
      at no smaller an index. */
  ghost predicate AsUpToDate(s: Server, a: VoteRequest)
    requires s.logs != []
  {
    var last := |s.logs| - 1;
    a.lastLogTerm > s.logs[last].term || (a.lastLogTerm == s.logs[last].term && a.lastLogIndex >= last)
  }

  /** A vote is granted exactly for a term not past, to a candidate as up to date as
      the voter that no other has been preferred to; everything is saved. */
  lemma VoteOutcome(s: Server, a: VoteRequest)
    requires s.logs != []
    ensures var (s', r) := HandleVote(s, a);
      && (r.granted <==> a.term >= s.currentTerm && Free(s, a) && AsUpToDate(s, a))
      && Follows(s, s', a.term) && s'.votedFor == (if r.granted then a.candidate else VoteLeft(s, a.term))
      && r.term == s'.currentTerm && AllSaved(s') && SameLogAndIndices(s, s')
  {
  }

  /** The timer starts an election for oneself in the next term, from any role. */
  lemma TimeoutOutcome(s: Server)
    ensures var s' := Timeout(s);
      && s'.currentTerm == s.currentTerm + 1 && s'.votedFor == s.me && AllSaved(s') && SameLogAndIndices(s, s')
      && s'.role == if s.role.Follower? then Candidate else s.role
  {
  }

  /** What the request describes: a voter finds the candidate as up to date exactly if
      the candidate's last entry is of a later term, or of the same in as long a log. */
  lemma RequestOutcome(s: Server, voter: Server)
    requires s.logs != [] && voter.logs != []
    ensures var a, mine, theirs := RequestOf(s), s.logs[|s.logs| - 1].term, voter.logs[|voter.logs| - 1].term;
      && a.term == s.currentTerm && a.candidate == s.me
      && (AsUpToDate(voter, a) <==> mine > theirs || (mine == theirs && |s.logs| >= |voter.logs|))
  {
  }

  /** A counted vote makes a leader exactly if it completes a majority; any other reply
      leaves its receiver in the larger of both terms, and what rose is saved. */
  lemma VoteReplyOutcome(s: Server, r: VoteReply, votes: int)
    ensures var s' := HandleVoteReply(s, r, votes);
      if r.granted && s.role.Candidate? then
        && (s'.role.Leader? <==> 2 * votes > |s.nextIndex|)
        && (!s'.role.Leader? ==> s' == s)
        && s'.currentTerm == s.currentTerm && s'.votedFor == s.votedFor && s'.logs == s.logs && s'.saved == s.saved
      else
        && Follows(s, s', r.term) && s'.votedFor == VoteLeft(s, r.term) && SameLogAndIndices(s, s')
        && (if s'.currentTerm > s.currentTerm then s'.role.Follower? && AllSaved(s') else s' == s)
  {
  }

  /** A new leader tries everybody from the end of its log and knows of no match. */
  lemma LeaderOutcome(s: Server, r: VoteReply, votes: int)
    requires !s.role.Leader? && HandleVoteReply(s, r, votes).role.Leader?
    ensures var s' := HandleVoteReply(s, r, votes);
      && |s'.nextIndex| == |s.nextIndex| && |s'.matchIndex| == |s.matchIndex| && s'.commitIndex == s.commitIndex
      && (forall p :: 0 <= p < |s'.nextIndex| ==> s'.nextIndex[p] == |s.logs|)
      && (forall p :: 0 <= p < |s'.matchIndex| ==> s'.matchIndex[p] == 0)
  {
  }

  // ----- log replication

  /** Everything but one peer's entry. */
  ghost predicate OthersKept(was: seq<int>, now: seq<int>, peer: nat) {
    |now| == |was| && forall p :: 0 <= p < |now| && p != peer ==> now[p] == was[p]
  }

  /** A leader puts a command at the end of its log, in its term, and counts itself;
      nobody else does anything. */
  lemma StartOutcome(s: Server, command: Command)
    requires s.me < |s.nextIndex| == |s.matchIndex|
    ensures var s' := StartCommand(s, command);
      if s.role.Leader? then
        && |s'.logs| == |s.logs| + 1 && s.logs <= s'.logs && s'.logs[|s.logs|] == LogEntry(command, s.currentTerm)
        && s'.matchIndex[s.me] == |s.logs| && s'.nextIndex[s.me] == |s.logs| + 1 && AllSaved(s')
        && OthersKept(s.matchIndex, s'.matchIndex, s.me) && OthersKept(s.nextIndex, s'.nextIndex, s.me)
        && s' == s.(logs := s'.logs, matchIndex := s'.matchIndex, nextIndex := s'.nextIndex, saved := s'.saved)
      else s' == s
  {
  }

  /** A peer whose log ends at the index before the entries sent, with the sender's
      entries, has the sender's log after accepting them. */
  lemma AppendCompletes(s: Server, peer: nat, receiver: Server)
    requires CanBuild(s, peer) && receiver.currentTerm <= s.currentTerm
    requires |receiver.logs| == s.nextIndex[peer] && receiver.logs <= s.logs
    ensures var a := BuildAppend(s, peer);
      a.term == s.currentTerm && a.leader == s.me && a.leaderCommit == s.commitIndex &&
      var (s', r) := HandleAppend(receiver, a);
      r.success && s'.logs == s.logs
  {
    hide HandleAppend, RefusalOk, Follows, VoteLeft, AllSaved, SameLogAndIndices;
    var a := BuildAppend(s, peer);
    assert HasPrevious(receiver, a);
    AppendOutcome(receiver, a);
    var held := AcceptedLog(receiver, a);
    assert receiver.logs[..a.prevLogIndex + 1] + a.entries == s.logs;
  }

  /** The entry the new ones come after is in the log. */
  ghost predicate HasPrevious(s: Server, a: AppendArgs) {
    0 <= a.prevLogIndex < |s.logs| && s.logs[a.prevLogIndex].term == a.prevLogTerm
  }

  /** `r` is the first index of the run of equal terms that ends at `i`. */
  ghost predicate IsRunStart(logs: Log, i: nat, r: int)
    requires i < |logs|
  {
    && 0 <= r <= i && (r > 0 ==> logs[r - 1].term != logs[i].term)
    && forall k :: r <= k <= i ==> logs[k].term == logs[i].term
  }

  lemma {:induction false} RunStartExactly(logs: Log, i: nat)
    requires i < |logs|
    ensures IsRunStart(logs, i, RunStart(logs, i))
  {
    if i > 0 && logs[i - 1].term == logs[i].term {
      RunStartExactly(logs, i - 1);
    }
  }

  /** A refusal names the higher term, the end of the log, or the run of the entry that
      differs. */
  ghost predicate RefusalOk(s: Server, a: AppendArgs, r: AppendReply) {
    if a.term < s.currentTerm then r.conflictTerm == 0 && r.conflictIndex == 0
    else if a.prevLogIndex >= |s.logs| then r.conflictTerm == -1 && r.conflictIndex == |s.logs|
    else
      && 0 <= a.prevLogIndex && r.conflictTerm == s.logs[a.prevLogIndex].term
      && IsRunStart(s.logs, a.prevLogIndex, r.conflictIndex)
  }

  /** An append is accepted exactly if its term is not past and the entry before the new
      ones is there; all servers end in the larger of both terms, and save it. */
  lemma AppendOutcome(s: Server, a: AppendArgs)
    requires 0 <= a.prevLogIndex
    ensures var (s', r) := HandleAppend(s, a);
      && (r.success <==> a.term >= s.currentTerm && HasPrevious(s, a))
      && Follows(s, s', a.term) && s'.votedFor == VoteLeft(s, a.term) && AllSaved(s')
      && s'.me == s.me && s'.nextIndex == s.nextIndex && s'.matchIndex == s.matchIndex
      && (!r.success ==> r.term == s'.currentTerm && RefusalOk(s, a, r) && SameLogAndIndices(s, s'))
  {
    hide Merge, RunStart;
    if a.prevLogIndex < |s.logs| {
      RunStartExactly(s.logs, a.prevLogIndex);
    }
  }

  lemma AcceptMerges(s: Server, a: AppendArgs)
    requires a.term >= s.currentTerm && HasPrevious(s, a)
    ensures HandleAppend(s, a).0.logs == Merge(s.logs, a.prevLogIndex, a.entries)
  {
    hide Merge;
  }

  /** The log holds the first `held` entries, by term, from index `from` on. */
  ghost predicate HoldsTerms(logs: Log, from: nat, entries: Log, held: nat) {
    held <= |entries| && from + held <= |logs| && forall i :: 0 <= i < held ==> logs[from + i].term == entries[i].term
  }

  /** And no more of them. */
  ghost predicate HeldExactly(logs: Log, from: nat, entries: Log, held: nat) {
    && HoldsTerms(logs, from, entries, held)
    && (held < |entries| && from + held < |logs| ==> logs[from + held].term != entries[held].term)
  }

  lemma HeldFound(logs: Log, prev: nat, entries: Log)
    requires prev < |logs|
    ensures var u := FirstUnmatched(logs, prev, entries, 0);
      HeldExactly(logs, prev + 1, entries, if u == -1 then |entries| else u)
  {
    Matched(logs, prev, entries, 0);
    hide FirstUnmatched;
  }

  /** The log then: unchanged if it holds all the entries, by term, and otherwise cut
      before the first that it lacks and continued by the sender's. */
  lemma AcceptedLog(s: Server, a: AppendArgs) returns (held: nat)
    requires a.term >= s.currentTerm && HasPrevious(s, a)
    ensures HeldExactly(s.logs, a.prevLogIndex + 1, a.entries, held)
    ensures var s', from := HandleAppend(s, a).0, a.prevLogIndex + 1;
      s'.logs == if held == |a.entries| then s.logs else s.logs[..from + held] + a.entries[held..]
  {
    hide FirstUnmatched, HandleAppend, HoldsTerms;
    AcceptMerges(s, a);
    HeldFound(s.logs, a.prevLogIndex, a.entries);
    var u := FirstUnmatched(s.logs, a.prevLogIndex, a.entries, 0);
    held := if u == -1 then |a.entries| else u;
  }

  /** The commit index only rises: to the one named, or to the end of the log. */
  lemma AcceptedCommit(s: Server, a: AppendArgs)
    requires a.term >= s.currentTerm && HasPrevious(s, a)
    ensures var s' := HandleAppend(s, a).0;
      s'.commitIndex ==
        if a.leaderCommit <= s.commitIndex then s.commitIndex
        else if a.leaderCommit < |s'.logs| then a.leaderCommit
        else |s'.logs| - 1
  {
    hide Merge;
  }

  /** A success records the whole append as matched, and the commit index is the largest
      index in the log, if above the old one, that a majority matches. */
  lemma SuccessOutcome(s: Server, peer: nat, a: AppendArgs, r: AppendReply)
    requires CanHandleReply(s, peer, a, r) && r.success
    ensures var s' := HandleAppendReply(s, peer, a, r);
      && s'.matchIndex[peer] == a.prevLogIndex + |a.entries| && s'.nextIndex[peer] == s'.matchIndex[peer] + 1
      && OthersKept(s.matchIndex, s'.matchIndex, peer) && OthersKept(s.nextIndex, s'.nextIndex, peer)
      && s' == s.(matchIndex := s'.matchIndex, nextIndex := s'.nextIndex, commitIndex := s'.commitIndex)
      && s'.commitIndex >= s.commitIndex
      && (s'.commitIndex > s.commitIndex ==>
        s'.commitIndex < |s.logs| && |AtLeast(s'.matchIndex, s'.commitIndex)| > |s.matchIndex| / 2)
      && (forall j :: s'.commitIndex < j < |s.logs| ==> |AtLeast(s'.matchIndex, j)| <= |s.matchIndex| / 2)
  {
    hide CommitUpTo, Count, AtLeast;
    var s' := HandleAppendReply(s, peer, a, r);
    var m := s'.matchIndex;
    CommitCounted(m, s.commitIndex, |s.logs| - 1);
    CountIsSize(m, s'.commitIndex);
    forall j | s'.commitIndex < j < |s.logs| ensures |AtLeast(m, j)| <= |m| / 2 {
      CountIsSize(m, j);
    }
  }

  /** Where the next append starts after a refusal: just after the last entry of the
      conflicting term before the index tried, or at the index named. */
  ghost predicate IsBackUp(logs: Log, prev: int, r: AppendReply, next: int) {
    if r.conflictTerm != -1 && TermBelow(logs, r.conflictTerm, prev) then
      && 1 <= next <= prev && next <= |logs| && logs[next - 1].term == r.conflictTerm
      && forall i :: next <= i < prev && i < |logs| ==> logs[i].term != r.conflictTerm
    else next == r.conflictIndex
  }

  /** Any other reply leaves its receiver in the larger of both terms: what rose is
      saved, otherwise only the peer's next index changes. */
  lemma RefusalOutcome(s: Server, peer: nat, a: AppendArgs, r: AppendReply)
    requires CanHandleReply(s, peer, a, r) && !r.success
    ensures var s' := HandleAppendReply(s, peer, a, r);
      && Follows(s, s', r.term) && s'.votedFor == VoteLeft(s, r.term)
      && SameLogAndIndices(s, s'.(nextIndex := s.nextIndex))
      && if s'.currentTerm > s.currentTerm then s'.role.Follower? && AllSaved(s') && s'.nextIndex == s.nextIndex
         else
           && s' == s.(nextIndex := s'.nextIndex) && OthersKept(s.nextIndex, s'.nextIndex, peer)
           && IsBackUp(s.logs, a.prevLogIndex, r, s'.nextIndex[peer])
  {
    hide AfterTerm;
    if Scans(s, r) {
      AfterTermExactly(s.logs, r.conflictTerm, a.prevLogIndex, r.conflictIndex);
    }
  }

  // ----- restarts

  /** A restart knows what was saved, or what a new server has; nothing else. */
  lemma RestartOutcome(s: Server)
    ensures var s' := Restart(s);
      && s'.me == s.me && s'.role.Follower? && s'.saved == s.saved && s'.commitIndex == 0
      && |s'.nextIndex| == |s'.matchIndex| == |s.nextIndex|
      && (forall p :: 0 <= p < |s'.nextIndex| ==> s'.nextIndex[p] == 1 && s'.matchIndex[p] == 0)
      && (if s.saved.Some? then AllSaved(s')
          else s'.currentTerm == 0 && s'.votedFor == -1 && s'.logs == [LogEntry(0, 0)])
  {
  }

  /** In every run, a crash leaves its server a follower with the term, vote and log it
      had and nothing else it knew; the others and all messages stay. */
  lemma CrashOutcome(n: nat, steps: seq<Step>, v: nat)
    requires v < n
    ensures var g, g' := Run(n, steps), Run(n, steps + [CrashStep(v)]);
      && |g.servers| == |g'.servers| == n && (forall u :: 0 <= u < n && u != v ==> g'.servers[u] == g.servers[u])
      && g' == g.(servers := g'.servers, elections := g'.elections)
      && var s, s' := g.servers[v], g'.servers[v];
        && s'.role.Follower? && s'.commitIndex == 0
        && s'.currentTerm == s.currentTerm && s'.votedFor == s.votedFor && s'.logs == s.logs
        && |s'.nextIndex| == |s'.matchIndex| == n
        && (forall p :: 0 <= p < n ==> s'.nextIndex[p] == 1 && s'.matchIndex[p] == 0)
  {
    assert (steps + [CrashStep(v)])[..|steps|] == steps;
    RunElection(n, steps);
    assert ServerOk(Run(n, steps).servers[v], v, n);
    RestartOutcome(Run(n, steps).servers[v]);
  }
}
