/**
 The server as the mutable object it is: fields updated in place by loops and
 handlers.  Every method is proved to do what the value-level function of the
 same critical section says.
 */
module RaftImpl {
  import opened Common
  import opened RaftServer

  class Raft {
    const me: nat
    const peers: nat
    var role: Role
    var currentTerm: int
    var votedFor: int
    var logs: Log
    var commitIndex: int
    var lastApplied: int
    var nextIndex: seq<int>
    var matchIndex: seq<int>
    var saved: Option<Persisted>

    ghost function Value(): Server
      reads this
    {
      Server(me, role, currentTerm, votedFor, logs, commitIndex, nextIndex, matchIndex, saved)
    }

    ghost predicate Valid()
      reads this
    {
      me < peers == |nextIndex| == |matchIndex| && logs != []
    }

    /** What is saved is what the server has. */
    ghost predicate AllSaved()
      reads this
    {
      saved == Some(Persisted(currentTerm, votedFor, logs))
    }

    /** The larger of a term before and one heard of. */
    static ghost function Later(term: int, heard: int): int {
      if heard > term then heard else term
    }

    /** `Make`: fresh volatile state, then whatever was saved before a crash. */
    constructor (peers: nat, me: nat, saved: Option<Persisted>)
      requires me < peers && (saved.Some? ==> saved.value.logs != [])
      ensures Valid() && Value() == Boot(me, peers, saved) && lastApplied == 0
    {
      this.me, this.peers := me, peers;
      currentTerm, votedFor, role := 0, -1, Follower;
      logs := [SENTINEL];
      commitIndex, lastApplied := 0, 0;
      nextIndex := Fill(peers, 1);
      matchIndex := Fill(peers, 0);
      this.saved := saved;
      new;
      ReadPersist(saved);
    }

    method SavePersist()
      modifies this`saved
      ensures saved == Some(Persisted(currentTerm, votedFor, logs))
    {
      saved := Some(Persisted(currentTerm, votedFor, logs));
    }

    method ReadPersist(data: Option<Persisted>)
      modifies this`currentTerm, this`votedFor, this`logs
      ensures data.None? ==> currentTerm == old(currentTerm) && votedFor == old(votedFor) && logs == old(logs)
      ensures data.Some? ==> Persisted(currentTerm, votedFor, logs) == data.value
    {
      if data.None? {
        return;
      }
      currentTerm, votedFor, logs := data.value.term, data.value.votedFor, data.value.logs;
    }

    method ConvertToFollower()
      modifies this`role, this`votedFor
      ensures role == Follower
      ensures votedFor == if old(role) == Follower then old(votedFor) else -1
    {
      if role == Follower {
        return;
      }
      role := Follower;
      votedFor := -1;
    }

    method ConvertToLeader()
      requires Valid()
      modifies this`role, this`nextIndex, this`matchIndex
      ensures Valid() && Value() == BecomeLeader(old(Value()))
    {
      if role == Leader {
        return;
      }
      role := Leader;
      for i := 0 to |nextIndex|
        modifies this`nextIndex
        invariant |nextIndex| == peers && forall k :: 0 <= k < i ==> nextIndex[k] == |logs|
      {
        nextIndex := nextIndex[i := |logs|];
      }
      for i := 0 to |matchIndex|
        modifies this`matchIndex
        invariant |matchIndex| == peers && forall k :: 0 <= k < i ==> matchIndex[k] == 0
      {
        matchIndex := matchIndex[i := 0];
      }
    }

    method RequestVote(args: VoteRequest) returns (reply: VoteReply)
      requires Valid()
      modifies this`role, this`votedFor, this`currentTerm, this`saved
      ensures Valid() && (Value(), reply) == HandleVote(old(Value()), args)
      ensures var last := |logs| - 1;
        reply.granted <==>
          && args.term >= old(currentTerm)
          && (args.term == old(currentTerm) ==> old(votedFor) == -1 || old(votedFor) == args.candidate)
          && (args.lastLogTerm > logs[last].term
              || (args.lastLogTerm == logs[last].term && args.lastLogIndex >= last))
      ensures reply.granted ==> votedFor == args.candidate
      ensures reply.term == currentTerm == Later(old(currentTerm), args.term) && AllSaved()
    {
      if args.term < currentTerm || (args.term == currentTerm && votedFor != -1 && votedFor != args.candidate) {
        SavePersist();
        return VoteReply(currentTerm, false);
      }
      if args.term > currentTerm {
        currentTerm := args.term;
        ConvertToFollower();
      }
      var lastLogIndex := |logs| - 1;
      if args.lastLogTerm < logs[lastLogIndex].term
         || (args.lastLogTerm == logs[lastLogIndex].term && args.lastLogIndex < lastLogIndex) {
        SavePersist();
        return VoteReply(currentTerm, false);
      }
      votedFor := args.candidate;
      SavePersist();
      return VoteReply(currentTerm, true);
    }

    /** The election timer's critical section, up to sending the requests. */
    method ElectionTimeout() returns (args: VoteRequest, voteCount: int)
      requires Valid()
      modifies this`role, this`votedFor, this`currentTerm, this`saved
      ensures Valid() && Value() == Timeout(old(Value())) && voteCount == 1
      ensures args == VoteRequest(currentTerm, me, |logs| - 1, logs[|logs| - 1].term) == RequestOf(Value())
    {
      if role == Follower {
        role := Candidate;
      }
      args, voteCount := StartElection();
    }

    method StartElection() returns (args: VoteRequest, voteCount: int)
      requires Valid()
      modifies this`votedFor, this`currentTerm, this`saved
      ensures currentTerm == old(currentTerm) + 1 && votedFor == me && saved == Some(Persisted(currentTerm, me, logs))
      ensures args == VoteRequest(currentTerm, me, |logs| - 1, logs[|logs| - 1].term) && voteCount == 1
    {
      currentTerm := currentTerm + 1;
      var lastLogIndex := |logs| - 1;
      args := VoteRequest(currentTerm, me, lastLogIndex, logs[lastLogIndex].term);
      voteCount := 0;
      for peer := 0 to peers
        modifies this`votedFor
        invariant votedFor == if peer <= me then old(votedFor) else me
        invariant voteCount == if peer <= me then 0 else 1
      {
        if peer == me {
          votedFor := me;
          voteCount := voteCount + 1;
        }
      }
      SavePersist();
    }

    /** A reply to a vote request comes in; `voteCount` is that election's own. */
    method ReceiveVote(reply: VoteReply, voteCount: int) returns (voteCount': int)
      requires Valid()
      modifies this
      ensures voteCount' == if reply.granted && old(role) == Candidate then voteCount + 1 else voteCount
      ensures role == Leader && old(role) != Leader <==> voteCount' > voteCount && 2 * voteCount' > peers
      ensures currentTerm == if voteCount' > voteCount then old(currentTerm) else Later(old(currentTerm), reply.term)
      ensures currentTerm > old(currentTerm) ==> role == Follower && AllSaved()
      ensures Valid() && Value() == HandleVoteReply(old(Value()), reply, voteCount') && lastApplied == old(lastApplied)
    {
      voteCount' := voteCount;
      if reply.granted && role == Candidate {
        voteCount' := voteCount' + 1;
        if voteCount' > peers / 2 {
          ConvertToLeader();
        }
      } else if reply.term > currentTerm {
        currentTerm := reply.term;
        ConvertToFollower();
        SavePersist();
      }
    }

    method Start(command: Command) returns (index: int, term: int, isLeader: bool)
      requires Valid()
      modifies this`logs, this`matchIndex, this`nextIndex, this`saved
      ensures Valid() && Value() == StartCommand(old(Value()), command)
      ensures term == currentTerm && isLeader == (role == Leader)
      ensures index == if isLeader then |old(logs)| else -1
      ensures isLeader ==> logs[index] == LogEntry(command, term)
    {
      index, term, isLeader := -1, currentTerm, role == Leader;
      if isLeader {
        index := |logs|;
        logs := logs + [LogEntry(command, term)];
        matchIndex := matchIndex[me := index];
        nextIndex := nextIndex[me := index + 1];
        SavePersist();
      }
    }

    /** Record the commit; the entries not yet applied are handed to a goroutine
        that delivers them from `first` on. */
    method SetCommitIndex(commit: int) returns (first: int, batch: Log)
      requires 0 <= lastApplied && commit < |logs|
      modifies this`commitIndex
      ensures commitIndex == commit && first == lastApplied + 1
      ensures batch == Unapplied(logs, lastApplied, commit)
      ensures |batch| == if commit > lastApplied then commit - lastApplied else 0
      ensures forall k :: 0 <= k < |batch| ==> batch[k] == logs[first + k]
    {
      commitIndex := commit;
      first, batch := lastApplied + 1, [];
      if commitIndex > lastApplied {
        batch := logs[lastApplied + 1..commitIndex + 1];
      }
    }

    /** The terms scanned by the loops below stay in the log. */
    ghost predicate ScanSafe(args: AppendArgs)
      reads this
    {
      && 0 <= args.prevLogIndex
      && logs != [] && logs[0].term == 0 && (forall i :: 1 <= i < |logs| ==> logs[i].term >= 1)
      && (args.prevLogIndex == 0 ==> args.prevLogTerm == 0)
    }

    method AppendEntries(args: AppendArgs) returns (reply: AppendReply, first: int, batch: Log)
      requires Valid() && ScanSafe(args) && 0 <= lastApplied
      modifies this`role, this`votedFor, this`currentTerm, this`logs, this`commitIndex, this`saved
      ensures Valid() && (Value(), reply) == HandleAppend(old(Value()), args)
      ensures first == lastApplied + 1
      ensures batch == if reply.success && args.leaderCommit > old(commitIndex)
                       then Unapplied(logs, lastApplied, commitIndex) else []
    {
      first, batch := lastApplied + 1, [];
      if args.term < currentTerm {
        SavePersist();
        return AppendReply(currentTerm, false, 0, 0), first, batch;
      }
      if args.term > currentTerm {
        currentTerm := args.term;
        ConvertToFollower();
      }
      var absoluteLastLogIndex := |logs| - 1;
      if absoluteLastLogIndex < args.prevLogIndex {
        SavePersist();
        return AppendReply(currentTerm, false, -1, absoluteLastLogIndex + 1), first, batch;
      }
      if logs[args.prevLogIndex].term != args.prevLogTerm {
        var conflictTerm := logs[args.prevLogIndex].term;
        var conflictIndex := FindConflict(args.prevLogIndex);
        SavePersist();
        return AppendReply(currentTerm, false, conflictTerm, conflictIndex), first, batch;
      }
      first, batch := AcceptEntries(args);
      SavePersist();
      reply := AppendReply(0, true, 0, 0);
    }

    method AcceptEntries(args: AppendArgs) returns (first: int, batch: Log)
      requires Valid() && 0 <= args.prevLogIndex < |logs| && 0 <= lastApplied
      modifies this`logs, this`commitIndex
      ensures Valid() && Value() == Accept(old(Value()), args)
      ensures first == lastApplied + 1
      ensures batch == if args.leaderCommit > old(commitIndex) then Unapplied(logs, lastApplied, commitIndex) else []
    {
      first, batch := lastApplied + 1, [];
      var unmatched := FindUnmatched(args.prevLogIndex, args.entries);
      if unmatched != -1 {
        logs := logs[..args.prevLogIndex + 1 + unmatched];
        logs := logs + args.entries[unmatched..];
      }
      assert logs == Merge(old(logs), args.prevLogIndex, args.entries);
      hide Merge;
      if args.leaderCommit > commitIndex {
        var lastLogIndex := |logs| - 1;
        if args.leaderCommit <= lastLogIndex {
          first, batch := SetCommitIndex(args.leaderCommit);
        } else {
          first, batch := SetCommitIndex(lastLogIndex);
        }
      }
    }

    /** Walk back to the first entry of the conflicting term. */
    method FindConflict(prev: int) returns (conflictIndex: int)
      requires 1 <= prev < |logs| && logs[0].term == 0 && logs[prev].term >= 1
      ensures conflictIndex == RunStart(logs, prev) && conflictIndex >= 1
    {
      conflictIndex := prev;
      while logs[conflictIndex - 1].term == logs[prev].term
        invariant 1 <= conflictIndex <= prev && logs[conflictIndex].term == logs[prev].term
        invariant RunStart(logs, conflictIndex) == RunStart(logs, prev)
        decreases conflictIndex
      {
        conflictIndex := conflictIndex - 1;
      }
    }

    method FindUnmatched(prev: int, entries: Log) returns (unmatched: int)
      requires 0 <= prev < |logs|
      ensures unmatched == FirstUnmatched(logs, prev, entries, 0)
    {
      unmatched := -1;
      var idx := 0;
      while idx < |entries|
        invariant 0 <= idx <= |entries| && prev + 1 + idx <= |logs|
        invariant FirstUnmatched(logs, prev, entries, idx) == FirstUnmatched(logs, prev, entries, 0)
      {
        if |logs| - 1 < prev + 1 + idx || logs[prev + 1 + idx].term != entries[idx].term {
          unmatched := idx;
          break;
        }
        idx := idx + 1;
      }
    }

    /** The append a leader sends: the log from `nextIndex` on, and the entry before. */
    method MakeAppend(server: nat) returns (args: Option<AppendArgs>)
      requires Valid() && server < peers && (role == Leader ==> 1 <= nextIndex[server] <= |logs|)
      ensures args.Some? <==> role == Leader
      ensures args.Some? ==> args.value == BuildAppend(Value(), server)
      ensures args.Some? ==> logs == logs[..args.value.prevLogIndex + 1] + args.value.entries
    {
      if role != Leader {
        return None;
      }
      var prevLogIndex := nextIndex[server] - 1;
      var entries := logs[prevLogIndex + 1..];
      return Some(AppendArgs(currentTerm, me, prevLogIndex, logs[prevLogIndex].term, entries, commitIndex));
    }

    /** A reply to an append comes in at the server that sent it.  It panics, before it
        saves anything, exactly if the search for the conflicting term starts past the
        log. */
    method ReceiveAppendReply(server: nat, args: AppendArgs, reply: AppendReply)
      returns (panics: bool, first: int, batch: Log)
      requires Valid() && server < peers && -1 <= commitIndex && 0 <= lastApplied
      modifies this`role, this`votedFor, this`currentTerm, this`commitIndex, this`nextIndex, this`matchIndex, this`saved
      ensures panics <==> !CanHandleReply(old(Value()), server, args, reply)
      ensures panics ==> args.prevLogIndex > |logs| && saved == old(saved)
      ensures !panics ==> Valid() && Value() == HandleAppendReply(old(Value()), server, args, reply)
      ensures currentTerm == if reply.success then old(currentTerm) else Later(old(currentTerm), reply.term)
      ensures currentTerm > old(currentTerm) ==> role == Follower && AllSaved()
      ensures first == lastApplied + 1
      ensures batch == if commitIndex != old(commitIndex) then Unapplied(logs, lastApplied, commitIndex) else []
    {
      panics, first, batch := false, lastApplied + 1, [];
      if reply.success {
        matchIndex := matchIndex[server := args.prevLogIndex + |args.entries|];
        nextIndex := nextIndex[server := matchIndex[server] + 1];
        first, batch := AdvanceCommit();
      } else if reply.term > currentTerm {
        currentTerm := reply.term;
        ConvertToFollower();
        SavePersist();
      } else {
        nextIndex := nextIndex[server := reply.conflictIndex];
        if reply.conflictTerm != -1 {
          var i := args.prevLogIndex;
          if i > |logs| {
            return true, first, batch;
          }
          ghost var goal := BackUp(logs, args.prevLogIndex, reply);
          while i >= 1
            invariant i <= args.prevLogIndex && |nextIndex| == peers
            invariant AfterTerm(logs, reply.conflictTerm, i, reply.conflictIndex) == goal
            invariant nextIndex == old(nextIndex)[server := reply.conflictIndex]
          {
            if logs[i - 1].term == reply.conflictTerm {
              nextIndex := nextIndex[server := i];
              break;
            }
            i := i - 1;
          }
        }
      }
    }

    method CountMatches(i: int) returns (count: nat)
      ensures count == Count(matchIndex, i)
    {
      count := 0;
      for k := 0 to |matchIndex|
        invariant count == Count(matchIndex[..k], i)
      {
        assert matchIndex[..k + 1][..k] == matchIndex[..k];
        if matchIndex[k] >= i {
          count := count + 1;
        }
      }
      assert matchIndex[..|matchIndex|] == matchIndex;
    }

    method AdvanceCommit() returns (first: int, batch: Log)
      requires Valid() && -1 <= commitIndex && 0 <= lastApplied
      modifies this`commitIndex
      ensures commitIndex == CommitUpTo(matchIndex, old(commitIndex), |logs| - 1)
      ensures first == lastApplied + 1
      ensures batch == if commitIndex != old(commitIndex) then Unapplied(logs, lastApplied, commitIndex) else []
    {
      first, batch := lastApplied + 1, [];
      var i := |logs| - 1;
      while i > commitIndex
        invariant i <= |logs| - 1 && commitIndex == old(commitIndex)
        invariant CommitUpTo(matchIndex, commitIndex, i) == CommitUpTo(matchIndex, commitIndex, |logs| - 1)
      {
        var count := CountMatches(i);
        if count > peers / 2 {
          first, batch := SetCommitIndex(i);
          break;
        }
        i := i - 1;
      }
    }
  }
}
