# Models and proofs for the MIT 6.824 labs

This project models the four components of the repository that do the hard work and
proves what they are for: the linearizability checker, Raft, the replicated key/value
service on top of it, and MapReduce.  `dafny verify dfyconfig.toml` checks everything.

**Linearizability checker** (`Histories`, `Search`, `Words`, `Bitset`, `LinkedEntries`,
`Checker`, `Entries`, `KvLocality`, `KvMeaning`, `CheckHistory`).  `Histories` gives the plain
definition: some order of the operations respects real time and is accepted by the
sequential model.  `Search` is the backtracking search on values with its invariant;
`Checker` is the imperative search over a doubly linked list, a bit set in 64-bit words
and a hash-bucketed cache, proved to decide the definition.  `KvLocality` shows why one
key at a time is enough, and `KvMeaning` what the key/value model accepts, in terms of puts,
appends and gets alone.

**Raft** (`RaftServer`, `RaftImpl`, `RaftOutcome`, `RaftCluster`, `RaftElection`, `RaftCounterexample`,
`RaftLogShape`, `RaftMatching`, `RaftRecords`, `RaftReplication`, `RaftCommit`,
`RaftFollow`, `RaftFalseCommit`, `RaftBackup`; `RaftScenario` puts concrete runs together).
`RaftServer` says what each critical section under `rf.mu` does to a server's state;
`RaftImpl.Raft` is the object whose methods are proved to do that, and `RaftOutcome` states
the outcome of every message without the handlers.  `RaftCluster` runs any
number of servers over a network that loses, delays, reorders and repeats messages, with
crashes.  Some theorems hold in every run.  Others need a *sound* run: no vote that
arrives late completes an earlier election of a candidate, and no election timer fires at
a leader.  Both are possible in the code (the reply handler looks only at the role,
raft/raft_leader_election.go:126, and the timer branch starts an election in every role,
raft/raft.go:178-182), so "one leader per term" is not a theorem:
`RaftCounterexample.TwoLeaders` is a run with two, and `RaftElection.ElectedExactly` says
which steps are to blame.  Nor is log matching (`LogsDisagree`); `RaftRecords.MatchingExactly`
says of every run whether it holds.  The results on match indices and commits need
*honest* replies, such as those handled while their sender still leads the term they answer
(`RaftCommit.InTermRunHonest`); the handler does not look.  `RaftCommit.IndicesExactly` says
exactly when they hold; without honest replies a leader may index its log out of bounds
(`LateRefusal`, `StaleRefusal`) or commit alone (`RaftFalseCommit.CommitAlone`).  Even with
honest replies a follower may commit an entry its leader does not have (`CommitBeyond`) and
take the clamp the code asks about (`ClampTaken`), because a log can be cut below its commit
index; `RaftFollow.FollowerCommits` and `RaftFollow.InsideExactly` say exactly when.

**Key/value service** (`KvStore`, `KvDelivery`, `KvServer`, `KvClerks`, `KvOrder`, `KvService`,
`KvLinearizable`, `KvProgress`).  Apply goroutines overlap and deliver entries repeatedly; clerks resend;
the server filters with one number per client and reads a get's value some time after it
applied the get.  The state is nevertheless that of applying each request once, in order,
and every history of the service is linearizable for the checker's own key/value model; from
every state a waiting clerk can still be answered.
The entry at each committed index is taken as fixed.

**MapReduce** (`MrNames`, `MrGroup`, `MrTasks`, `MrMaster`, `MrSchedule`).  The
hash-partitioned computation over files equals a direct group-by, task by task and under
every interleaving of workers, failures and re-executions.

Where code and comments disagree the code is followed: a list node with a match is a call,
although linearizability/linearizability.go:53 says the reverse.

Assumptions, stated as `requires` or built into the model: `Equal` is equality; an
operation's call is before its return and no call has the time of a return (other ties are
allowed); a history checked by key is not empty, since the code waits forever for the
results of no partitions; `Start` of Raft is one step; a handler that panics ends its
process, which is a crash, and crashes may come at any time; a saved triple decodes to
itself, and so does a file of key/value pairs; a clerk goes on only when a server has
applied its request, which is what `KvServer.KVServer.Leave` guarantees; workers register
once, a task runs atomically, and a call that fails leaves nothing running; input files are
none of the job's own files. Library calls (`sort.Sort`, `sort.Strings`) are modelled by
methods with their contracts.

## Model

| member | source | states |
|---|---|---|
| `Checker.CheckSingle` | linearizability/linearizability.go:167-214 | the search ends on every well-formed entry list, never follows a nil cursor, and answers true exactly when some order of all operations respects real time and is accepted by the model from its initial state |
| `Checker.SearchFrom` | linearizability/linearizability.go:173-213 | the main loop decides that plain definition from the start state; it ends by the reachable (set, state) pairs not yet cached, then the stack, then the distance to the next return |
| `Checker.PushCall` | linearizability/linearizability.go:187-193 | linearizing a call keeps list, stack, bit set, state and cache in step with the abstract search; the cursor is the first remaining entry |
| `Checker.PopCall` | linearizability/linearizability.go:204-210 | backtracking restores list, stack, bit set and state as they were before the call was taken, and the invariant of the search holds again |
| `Checker.Remember` | linearizability/linearizability.go:184-188 | the clone of the bit set with the new id is looked up exactly and then cached; cached bit sets are new arrays that later updates cannot reach |
| `Checker.CacheContains` | linearizability/linearizability.go:133-140 | the hash-bucketed look-up is membership in the set of all cached (set, state) pairs, both ways |
| `Checker.CacheInsert` | linearizability/linearizability.go:187-188 | appending to a bucket adds exactly one pair to the set the cache stands for |
| `Checker.LiftEntry` | linearizability/linearizability.go:147-155 | afterwards the list is the original one without both nodes of every operation on the stack, next and prev inverse, also for adjacent call and return |
| `Checker.UnliftEntry` | linearizability/linearizability.go:157-165 | undoing the last lift restores the list of the shorter stack exactly |
| `Checker.Length` | linearizability/linearizability.go:72-79 | the number of nodes of the whole list |
| `LinkedEntries.Lift` | linearizability/linearizability.go:147-155 | both nodes leave the list, all others keep their order, and the removed nodes remember their neighbours |
| `LinkedEntries.Unlift` | linearizability/linearizability.go:157-165 | a removed pair whose neighbours are remembered goes back to its two places |
| `LinkedEntries.InsertBefore` | linearizability/linearizability.go:59-70 | the new node ends up between the mark and its old predecessor; no other pointer changes |
| `LinkedEntries.MakeLinkedEntries` | linearizability/linearizability.go:109-126 | one node per entry in order, doubly linked; a call node points to the node of its return, a return node to none |
| `LinkedEntries.BuiltRepresents` | linearizability/linearizability.go:109-126 | the nodes built from well-formed entries represent the operations whose call and return are the positions of those entries |
| `Search.StartInv` | linearizability/linearizability.go:173-176 | the invariant of the search holds at the first loop head |
| `Search.NewPairOffStack` | linearizability/linearizability.go:184-186 | a pair about to be tested is never on the stack, because the sets on the stack are strictly nested |
| `Search.SkipCall` | linearizability/linearizability.go:194-199 | passing over a call that is refused or cached loses no linearization |
| `Search.PushInv` | linearizability/linearizability.go:187-193 | taking a call keeps the invariant; every cached pair off the stack still has no completion |
| `Search.ExhaustedIsDead` | linearizability/linearizability.go:200-211 | when the cursor meets a return, the current set and state have no completion |
| `Search.PopInv` | linearizability/linearizability.go:204-210 | backtracking keeps the invariant: the abandoned pair joins the dead ones |
| `Checker.PushedShrinks` | linearizability/linearizability.go:186-193 | a call is taken only with a pair not cached before, so the set of cached pairs grows: the first part of the termination measure |
| `Checker.SeenBounded` | linearizability/linearizability.go:176-193 | every cached pair is one of the finitely many reachable ones, which bounds that measure |
| `Search.FoundIsLinearizable` | linearizability/linearizability.go:176 | an empty list means a linearization was found |
| `Search.ExhaustedIsNotLinearizable` | linearizability/linearizability.go:200-203 | a return met with an empty stack means there is none |
| `Bitset.NewBitset` | linearizability/bitset.go:8-15 | the empty set over at least the given number of positions, in the fewest words |
| `Bitset.Clone` | linearizability/bitset.go:17-21 | a new array with the same words |
| `Bitset.Set` | linearizability/bitset.go:27-31 | set insertion |
| `Bitset.Clear` | linearizability/bitset.go:33-37 | set removal |
| `Bitset.Get` | linearizability/bitset.go:39-42 | set membership |
| `Bitset.Popcnt` | linearizability/bitset.go:44-54 | the size of the set |
| `Words.PopCountCounts` | linearizability/bitset.go:47-51 | the word-parallel sum and multiplication count the one bits of every 64-bit word |
| `Words.SetClearBit` | linearizability/bitset.go:27-37 | setting or clearing a bit changes that bit only |
| `Bitset.Equals` | linearizability/bitset.go:64-74 | equal lengths and words |
| `Bitset.MembersInjective` | linearizability/bitset.go:64-74 | bit sets of one length are equal exactly when they hold the same positions |
| `Bitset.Hash` | linearizability/bitset.go:56-62 | a function of the words alone, so equal bit sets hash alike |
| `Bitset.HashBit` | linearizability/bitset.go:56-62 | each bit of the hash is the parity of that bit over all words and the number of members |
| `Entries.MakeEntries` | linearizability/linearizability.go:37-49 | a permutation of the calls and returns of the history, in order of time |
| `Entries.SortByTime` | linearizability/linearizability.go:23-35 | a permutation in order of time |
| `Entries.EntriesWellFormed` | linearizability/linearizability.go:37-49 | every id then has one call and one later return |
| `Entries.EntriesRecord` | linearizability/linearizability.go:37-49 | the sorted entries are linearizable exactly when the timed history is |
| `Entries.Renumber` | linearizability/linearizability.go:81-95 | an id that appears first gets the number of different ids before it; equal ids stay equal, different ones different |
| `Entries.ConvertEntries` | linearizability/linearizability.go:97-107 | entries with the kind, value and id of the events, in order |
| `Entries.RenumberedWellFormed` | linearizability/linearizability.go:81-107 | paired events give well-formed entries |
| `KvLocality.Locality` | linearizability/model.go:24-27 | a history is linearizable against the whole key-to-value map exactly when each key's history is linearizable against the single-key model |
| `KvLocality.KeysMerge` | linearizability/models.go:29-48 | accepted orders of the single keys merge into an accepted order of the whole that respects real time across keys |
| `KvLocality.KeyRestricts` | linearizability/models.go:29-48 | an accepted order of the whole restricts to one for each key |
| `KvLocality.KeyHistoryDecides` | linearizability/models.go:17-28 | checking a key's own history is checking its part of the whole |
| `KvMeaning.AcceptsExactly` | linearizability/models.go:29-48 | an order of typed operations is accepted from the empty store exactly if every get in it returns the value of the last put to its key before it, followed by the values appended to that key since, in order |
| `KvMeaning.StoreLinearizable` | linearizability/models.go:15-50 | so a history is linearizable exactly if it has an order, in real time, in which all gets do |
| `KvMeaning.SequentialExactly` | linearizability/models.go:29-48 | a history whose operations never overlap has one order, and is linearizable exactly if in it all gets do |
| `KvMeaning.LastPut` | linearizability/models.go:38-41 | the position of the last put to a key before a position, or -1 |
| `CheckHistory.Partition` | linearizability/models.go:17-28 | one part per distinct key, in any order, each the key's operations in order |
| `CheckHistory.PartsDecide` | linearizability/model.go:24-27 | the whole history is linearizable exactly when every part is |
| `CheckHistory.CheckWhole` | linearizability/linearizability.go:235-246 | building the list from a history and searching it decides linearizability for any model |
| `CheckHistory.CheckOperations` | linearizability/linearizability.go:229-270 | the conjunction over the parts decides linearizability of the whole history against the whole store: true exactly if the operations have an order, in real time, in which every get returns the last put to its key followed by what was appended since |
| `CheckHistory.CheckEvents` | linearizability/linearizability.go:272-313 | for paired events, in order of position: the answer is right for every one-to-one renaming of the ids into 0, 1, ... |
| `CheckHistory.RenamingsAgree` | linearizability/linearizability.go:81-95 | linearizability does not depend on the renaming |
| `RaftImpl.Raft.constructor` | raft/raft.go:141-169 | the state of a new or restarted server: follower, what was saved, fresh index arrays |
| `RaftImpl.Raft.SavePersist` | raft/raft_snapshot.go:11-27 | the saved triple becomes the live one |
| `RaftImpl.Raft.ReadPersist` | raft/raft_snapshot.go:30-61 | the live triple becomes the saved one, if there is one |
| `RaftImpl.Raft.ConvertToFollower` | raft/raft_leader_election.go:6-16 | forgets the vote unless the server already follows |
| `RaftImpl.Raft.ConvertToLeader` | raft/raft_leader_election.go:19-32 | refines `BecomeLeader`: all next indices at the end of the log, all match indices 0 |
| `RaftImpl.Raft.RequestVote` | raft/raft_leader_election.go:60-93 | refines `HandleVote`; the vote is granted exactly if the term asked for is not past, the voter has not voted in it for another, and the last entry described is of a later term than the voter's or of the same at no smaller index; the larger term is adopted, answered and saved |
| `RaftImpl.Raft.ElectionTimeout` | raft/raft.go:174-183 | refines `Timeout` in every role, also the leader's; the request names the new term, the server and the last entry of its log |
| `RaftImpl.Raft.StartElection` | raft/raft_leader_election.go:96-121 | a new term, a vote for itself counted once, and the request for it |
| `RaftImpl.Raft.ReceiveVote` | raft/raft_leader_election.go:124-141 | refines `HandleVoteReply`; a candidate counts a granted vote and leads exactly when it has more than half; any other reply leaves the server in the larger of both terms, following and with all saved if it rose |
| `RaftImpl.Raft.Start` | raft/raft.go:102-122 | refines `StartCommand`; a leader's command stands at the returned index with the returned term |
| `RaftImpl.Raft.MakeAppend` | raft/raft_log_replication.go:155-173 | a leader's append carries the rest of its log after the entry it names |
| `RaftImpl.Raft.AppendEntries` | raft/raft_log_replication.go:29-146 | refines `HandleAppend` in state, reply and what is saved; a commit hands over the unapplied entries |
| `RaftImpl.Raft.AcceptEntries` | raft/raft_log_replication.go:115-145 | refines `Accept`: merge, then follow the leader's commit index |
| `RaftImpl.Raft.FindConflict` | raft/raft_log_replication.go:74-84 | the first entry of the conflicting term, at index 1 or later |
| `RaftImpl.Raft.FindUnmatched` | raft/raft_log_replication.go:117-125 | the first entry the log lacks or holds with another term |
| `RaftImpl.Raft.SetCommitIndex` | raft/raft_log_replication.go:235-258 | records the commit; the goroutine gets the entries after `lastApplied` up to the commit index: as many as the difference, each the log's at its index |
| `RaftImpl.Raft.ReceiveAppendReply` | raft/raft_log_replication.go:178-225 | panics exactly if the search for the conflicting term starts past the log, having saved nothing; otherwise refines `HandleAppendReply`: match and next index, commit count, or back-up |
| `RaftImpl.Raft.AdvanceCommit` | raft/raft_log_replication.go:187-199 | the largest index above the commit index that a majority of match indices reach, or no change |
| `RaftImpl.Raft.CountMatches` | raft/raft_log_replication.go:188-193 | the number of match indices at or above an index |
| `RaftOutcome.VoteOutcome` | raft/raft_leader_election.go:60-93 | for every server and request: when exactly the vote is granted, the term, role and vote afterwards, the term answered, all of it saved, and nothing else changed |
| `RaftOutcome.TimeoutOutcome` | raft/raft.go:174-183 | the next term, a vote for itself, saved; a leader goes on leading |
| `RaftOutcome.RequestOutcome` | raft/raft_leader_election.go:104-109 | a voter finds the request as up to date exactly if the candidate's last entry is of a later term, or of the same in as long a log |
| `RaftOutcome.VoteReplyOutcome` | raft/raft_leader_election.go:124-141 | for every server and reply: a counted vote makes a leader exactly if twice the votes exceed the peers; any other reply leaves the larger term, and what rose is saved |
| `RaftOutcome.LeaderOutcome` | raft/raft_leader_election.go:19-32 | a new leader's next indices are all at the end of its log and its match indices all 0 |
| `RaftOutcome.StartOutcome` | raft/raft.go:102-122 | a leader's log is one entry longer, it matches itself up to there and has saved it; nobody else changes |
| `RaftOutcome.AppendCompletes` | raft/raft_log_replication.go:155-173 | a peer that holds the leader's log up to its next index holds all of it after the append |
| `RaftOutcome.AppendOutcome` | raft/raft_log_replication.go:29-85 | for every server and append: accepted exactly if the term is not past and the previous entry is there; a refusal names the higher term, the end of the log, or the first index of the run of the entry that differs |
| `RaftOutcome.AcceptedLog` | raft/raft_log_replication.go:115-133 | the log keeps exactly the entries that match by term and is cut and continued only if one is missing or differs |
| `RaftOutcome.AcceptedCommit` | raft/raft_log_replication.go:134-145 | the commit index only rises: to the index named, or to the end of the log |
| `RaftOutcome.SuccessOutcome` | raft/raft_log_replication.go:181-200 | a success matches the peer up to the last entry sent; the commit index becomes the largest index of the log above it that more than half of the servers match |
| `RaftOutcome.RefusalOutcome` | raft/raft_log_replication.go:201-224 | a refusal leaves the larger term, saved if it rose; otherwise the peer's next index is just after the last entry of the conflicting term before the index tried, or the index named |
| `RaftOutcome.RestartOutcome` | raft/raft.go:141-169 | a restarted server follows with what was saved, or as a new one, and fresh indices |
| `RaftOutcome.CrashOutcome` | raft/raft_snapshot.go:30-61 | in every run a crash leaves its server a follower with term, vote and log as they were and nothing else it knew; the others and all messages stay |
| `RaftElection.RunElection` | raft/raft_leader_election.go:60-144 | in every run, recorded votes are consistent, counters count distinct servers that voted so, and the saved triple is the live one |
| `RaftElection.VotesOnce` | raft/raft_leader_election.go:60-93 | in every run with crashes and restarts a server votes for at most one candidate per term |
| `RaftElection.ElectionSafety` | raft/raft_leader_election.go:114-131 | in every run at most one election of a term ever counts votes of a majority, even at different times |
| `RaftElection.WonStays` | raft/raft_leader_election.go:114-131 | a counter once above half stays so, through crashes and later elections |
| `RaftElection.VotesForUpToDate` | raft/raft_leader_election.go:76-92 | in every run a vote goes only to a request that describes a log, held at some time, at least as up to date as the voter's, and of a term the voter has not passed |
| `RaftElection.NothingUnsaved` | raft/raft_snapshot.go:11-61 | in every reachable state a crash and restart gives back term, vote and log |
| `RaftElection.LateVotesLost` | raft/raft_leader_election.go:121-143 | in every run, no vote for an election begun before its candidate crashed is handled after |
| `RaftElection.ElectedExactly` | raft/raft_leader_election.go:124-132 | if all leaders have won their terms, they still have after a step exactly when the step is neither a late vote completing an earlier election nor an election timer firing at a leader |
| `RaftElection.OneLeaderPerTerm` | raft/raft_leader_election.go:124-132 | in every run without those two kinds of step, at most one leader per term |
| `RaftCounterexample.TwoLeaders` | raft/raft_leader_election.go:126-131 | a run of three servers that ends with two leaders of term 2 |
| `RaftCounterexample.LogsDisagree` | raft/raft.go:108-118 | two steps later their logs hold different entries of one term at one index: log matching is not a theorem |
| `RaftCounterexample.LateRefusal` | raft/raft_log_replication.go:200-221 | a sound run after which a leader would index its log before the first entry, because a refusal of an earlier term reached it late |
| `RaftFalseCommit.CommitAlone` | raft/raft_log_replication.go:183-199 | a sound run of three servers in which a leader commits entries no other server holds, because a success of an earlier term reached it late |
| `RaftLogShape.RunShape` | raft/raft_log_replication.go:29-132 | in every run, every log and every append in flight is sorted by term from the term-0 sentinel, has positive terms after it, and none above its holder's or sender's term |
| `RaftLogShape.ScanInBounds` | raft/raft_log_replication.go:74-84 | the conflict scan ends at index 1 or later |
| `RaftLogShape.Merged` | raft/raft_log_replication.go:117-132 | a merge leaves the receiver's log, if it holds the whole slice by terms, or its matching prefix followed by the sender's log |
| `RaftMatching.LogMatching` | raft/raft_log_replication.go:58-132 | in every sound run, two logs with an entry of the same index and term agree up to there |
| `RaftRecords.MatchingExactly` | raft/raft.go:102-122 | in every run, sound or not, all logs ever held match exactly if no leader ever appended an entry where another recorded log has one of the same term |
| `RaftRecords.MatchingStep` | raft/raft_log_replication.go:58-132 | one step keeps log matching exactly if the entry it appends, if any, has no such rival; no append can break it |
| `RaftMatching.SoundStep` | raft/raft_log_replication.go:29-132 | every sound step keeps log matching, with all logs ever held, and the ownership of terms |
| `RaftMatching.MergeAgreed` | raft/raft_log_replication.go:117-132 | between matching logs a merge leaves the receiver's log, extending the sender's, or the sender's log |
| `RaftReplication.AcceptedPrefix` | raft/raft_log_replication.go:58-132 | in every sound run, what a server in the leader's term has accepted, up to the largest accepted last index, equals the leader's log |
| `RaftReplication.AcceptedStays` | raft/raft_log_replication.go:58-132 | in every sound run, what a server had accepted in a term by some point it shares with the leader of the term at every later point, as long as it is in the term |
| `RaftReplication.AppendExtends` | raft/raft_log_replication.go:58-132 | a late, repeated or reordered append, reaching a server in its term or before it, never shrinks that prefix, and an accepted one extends it to its last index |
| `RaftReplication.AcceptKeepsShared` | raft/raft_log_replication.go:117-132 | a stale append drops no entry the two logs are known to share |
| `RaftCommit.RunIndices` | raft/raft_log_replication.go:178-221 | in sound runs in which leaders hear honest replies only, a leader's match index never exceeds what was accepted and its next index stays in its log, although replies may lower both |
| `RaftCommit.IndicesExactly` | raft/raft_log_replication.go:178-221 | in every sound run, that holds at every point exactly if every reply a leader handles is honest: a success was recorded in the leader's own term, and no reply moves the next index out of the log |
| `RaftCommit.InTermRunHonest` | raft/raft_log_replication.go:178-182 | replies handled while their sender still leads the term they answer are honest |
| `RaftCommit.AlwaysCanBuild` | raft/raft_log_replication.go:161-173 | there a leader can always build the next append: its slice is in bounds |
| `RaftCommit.BuildsExactly` | raft/raft_log_replication.go:183-221 | whatever term a reply is of, a leader survives it and can build the next append afterwards exactly if the reply leaves the next index inside the log: its conflict index is, or its conflict term occurs before the index tried; and the search for that term starts inside the log |
| `RaftCommit.InTermHandled` | raft/raft_log_replication.go:205-221 | in every sound run, a reply whose receiver still leads the term it answers can be handled without indexing out of bounds |
| `RaftFalseCommit.StaleRefusal` | raft/raft_log_replication.go:205-221 | a sound run after which a late refusal makes its receiver index its log out of bounds |
| `RaftCommit.RunHeld` | raft/raft_log_replication.go:58-132 | in every sound run, what a leader was told a server accepted, that server has held in that term |
| `RaftCommit.CommitMajority` | raft/raft_log_replication.go:183-199 | whenever the leader advances its commit index to i, a strict majority of servers have acknowledged its log: each has held it on 0..i in that term, and holds it still unless it has left the term |
| `RaftCommit.CommitReplicated` | raft/raft_log_replication.go:183-199 | all of that majority but those that have left the term hold the log on 0..i now |
| `RaftCommit.CountIsSize` | raft/raft_log_replication.go:188-193 | the count is the number of servers with a match index at or above i |
| `RaftCommit.CommitCounted` | raft/raft_log_replication.go:187-199 | an advanced commit index is counted by a strict majority, and no index above it is |
| `RaftFollow.NeverClamped` | raft/raft_log_replication.go:134-143 | an append covers the commit index it names exactly if its sender has that inside its own log; then no receiver takes the clamp to the end of the log |
| `RaftFollow.FollowerCommits` | raft/raft_log_replication.go:134-143 | in every sound run, when an accepted append moves a follower's commit index, the new one lies in the part of its log equal to the sender's exactly unless the named index is past the sender's log and the follower's log extends it; and the clamp is taken exactly if the named index is past both logs |
| `RaftFollow.InsideExactly` | raft/raft_log_replication.go:127-143 | in every run, all commit indices stay inside their logs at every point exactly if no accepted append ever cuts a log at or below its commit index |
| `RaftFollow.NothingCutCommits` | raft/raft_log_replication.go:134-143 | in such runs no append names a commit index past its sender's log, so no follower commits beyond the sender's log and the clamp is never taken |
| `RaftFalseCommit.ClampTaken` | raft/raft_log_replication.go:134-143 | a sound run, with every reply handled in its term, in which the clamp is taken: the question in the comment at line 135 has the answer yes |
| `RaftFalseCommit.CommitBeyond` | raft/raft_log_replication.go:134-143 | another, in which a follower commits an entry its leader does not have |
| `RaftBackup.RefusalBacksUp` | raft/raft_log_replication.go:58-85 | after a refusal the next index is smaller and at least 1, and the entry tried next has a smaller term in the follower's log or matches |
| `RaftBackup.ConflictsDecrease` | raft/raft_log_replication.go:205-221 | a second refusal in a row comes with a positive and, after a conflict, smaller conflict term, even if the leader's log grew |
| `RaftBackup.BackUpConverges` | raft/raft_log_replication.go:205-221 | against a fixed follower log there are at most (distinct positive terms in it) + 1 refusals |
| `KvDelivery.DeliveredInOrder` | raft/raft_log_replication.go:235-258 | under any interleaving of apply goroutines each delivery carries the committed entry and comes after one of the previous index |
| `KvDelivery.Contiguous` | raft/raft_log_replication.go:235-258 | the indices delivered are exactly 1 to the highest |
| `KvDelivery.RunInv` | raft/raft_log_replication.go:235-258 | in every interleaving `lastApplied`, even when it goes back, stays at or below the highest index delivered, and no goroutine is ahead of it by more than one |
| `KvDelivery.OnePass` | kvraft/server.go:168-186 | after any such stream the state is that of one pass over entries 1 to the highest |
| `KvDelivery.OverlapIsOnePass` | kvraft/server.go:168-186 | the same, for the stream of every interleaving |
| `KvDelivery.CommitDelivered` | raft/raft_log_replication.go:235-258 | once the goroutine a commit started has sent its last entry, every index from 1 to the commit index has been delivered; if none was needed, it had been before |
| `KvDelivery.ApartOnceEach` | raft/raft_log_replication.go:235-258 | if no commit comes while a goroutine is at work, the stream is the log from index 1 on, each entry once |
| `KvDelivery.ApartDelivers` | raft/raft_log_replication.go:235-258 | and up to exactly `lastApplied` when all have finished |
| `KvDelivery.CanFinish` | raft/raft_log_replication.go:244-256 | in every interleaving a goroutine can go on to send and record all its entries, and `lastApplied` is then its last index |
| `KvDelivery.DeliversAll` | raft/raft_log_replication.go:235-258 | one goroutine can deliver a whole log to a restarted server, whose state is then that of one pass over it |
| `KvStore.Settled` | kvraft/server.go:176-186 | an operation applied once is filtered ever after |
| `KvServer.KVServer.constructor` | kvraft/server.go:154-161 | the empty store |
| `KvServer.KVServer.Filter` | kvraft/server.go:176-185 | refines `ApplyOp`: the data and the client's number change together, or neither does |
| `KvServer.KVServer.Apply` | kvraft/server.go:173-196 | the state stays that of all deliveries so far; a waiter at the index is notified unless its channel is full, which blocks the loop |
| `KvServer.KVServer.ApplyLoop` | kvraft/server.go:168-197 | skips invalid messages and applies the others in order until they end or a full channel blocks it; a waiter with an empty channel is told of the first operation applied at its index |
| `KvServer.DeliveredAt` | kvraft/server.go:171-175 | each valid message is delivered, after those of the valid ones before it |
| `KvServer.FirstNoticeAt` | kvraft/server.go:187-194 | what a waiter is told is the first delivery at its index |
| `KvServer.KVServer.Enter` | kvraft/server.go:58-63 | one channel per index, made empty when it is missing |
| `KvServer.KVServer.Leave` | kvraft/server.go:65-78 | the answer is wrong leader exactly on a timeout or if the notification taken from the channel is not of the operation; otherwise the operation was delivered at its index |
| `KvServer.KVServer.Await` | kvraft/server.go:48-79 | with nothing left over at its index, a request is told it asked the right leader exactly if the first operation applied there while it waits is its own |
| `KvServer.KVServer.Answered` | kvraft/server.go:48-79 | waiting, applying and answering in a row gives the right leader |
| `KvServer.KVServer.Lookup` | kvraft/server.go:95-106 | the value, or none, in the state of one pass over everything delivered |
| `KvClerks.Clerk.constructor` | kvraft/client.go:25-31 | no request made yet |
| `KvClerks.Clerk.Call` | kvraft/client.go:46-97 | all retries carry the same operation with the next number, to server after server; the number is used up only by success |
| `KvClerks.RunInv` | kvraft/client.go:46-97 | in every run of clerks and network: one request at a time, the next one only after the last was committed |
| `KvClerks.CommittedLogs` | kvraft/client.go:46-97 | in every committed log numbers start at 1, none comes before its predecessor, and a number always means the same request |
| `KvClerks.NumberSummarises` | kvraft/server.go:176-186 | the one number kept for a client stands for exactly the requests seen from it |
| `KvClerks.FirstOccurrencesApplied` | kvraft/server.go:176-186 | the filter lets through exactly the first occurrences |
| `KvClerks.AppliedOnce` | kvraft/server.go:176-186 | every committed request is applied at exactly one place |
| `KvClerks.AppliedInOrder` | kvraft/server.go:176-186 | a client's requests are applied in the order of their numbers, without gaps |
| `KvClerks.FilterRefines` | kvraft/server.go:176-186 | the data equals that of a filter that remembers every id |
| `KvClerks.ExactlyOnce` | kvraft/server.go:168-186 | whatever clerks, network and apply goroutines do, a server's data is that of applying each request it has received once |
| `KvOrder.ScheduleLinearizes` | linearizability/models.go:34-48 | writes placed once each at their first occurrence in a log, reads after the prefix they return, places in real-time order: such a history is linearizable against the whole store |
| `KvService.RunInv` | kvraft/server.go:48-124 | in every run of clerks, copies, commits, overlapping deliveries, restarts and answers: each answer is the value after a prefix that holds its request, and no request is committed before it is made |
| `KvService.StreamReads` | kvraft/server.go:93-106 | a server that has received a request, however its goroutines overlap, reads the data of one pass over a prefix that holds the request |
| `KvLinearizable.RealTime` | kvraft/client.go:42-98 | a request that returned before another was made is placed before it |
| `KvLinearizable.HasSchedule` | kvraft/server.go:167-197 | writes by first occurrence and gets by the prefix they have read form such a schedule |
| `KvLinearizable.ServiceLinearizable` | kvraft/client.go:42-98 | in every run the answered requests and the committed writes not answered yet form a history that is linearizable for the checker's key/value model |
| `KvLinearizable.ServiceExplained` | kvraft/client.go:42-98 | so its answers have an order, in real time, in which every get returns the last put to its key followed by what was appended since |
| `KvProgress.CanAnswer` | kvraft/client.go:42-98 | from every state of the service a waiting clerk can get its answer, read after everything committed |
| `KvProgress.CanServe` | kvraft/client.go:42-98 | and so can an idle one, with any request, numbered one above its last |
| `KvLinearizable.ServiceCheckable` | linearizability/linearizability.go:229-270 | those histories meet what the checker asks of its input |
| `KvLinearizable.CheckService` | linearizability/linearizability.go:229-270 | the checker answers true on every such history that is not empty |
| `MrNames.ReduceNamesDistinct` | mapreduce/common.go:36-38 | two intermediate files have one name exactly when map and reduce task are the same |
| `MrNames.MergeNamesDistinct` | mapreduce/common.go:41-43 | likewise for result files |
| `MrNames.KindsDistinct` | mapreduce/common.go:36-43 | intermediate, result and output files never share a name |
| `MrNames.ItoaInjective` | mapreduce/common.go:37 | different numbers print differently |
| `MrNames.ItoaValue` | mapreduce/common.go:37 | a number prints as the decimal digits that stand for it, without leading zeros |
| `MrNames.ReduceNameReads` | mapreduce/common.go:36-38 | read back, the name gives the map task and then the reduce task |
| `MrMaster.Partition` | mapreduce/common_map.go:76-81 | each bucket holds the pairs of its keys, in order of emission |
| `MrMaster.DoMap` | mapreduce/common_map.go:75-100 | writes the buckets of this task's pairs and no other file |
| `MrTasks.MapTaskDone` | mapreduce/common_map.go:84-100 | running a map task, for the first time or again, completes it and leaves the completed ones complete |
| `MrMaster.DoReduce` | mapreduce/common_reduce.go:61-90 | lists each key of its input once, in any order, with the reduction of its values in the order read; stops when a file is missing |
| `MrMaster.ReadFile` | mapreduce/common_reduce.go:71-78 | the groups then hold the values of each key in the order read |
| `MrMaster.ReduceGroups` | mapreduce/common_reduce.go:88-90 | one pair per group, in any order |
| `MrTasks.ReduceTaskDone` | mapreduce/common_reduce.go:61-90 | over complete map files a reduce task, run once or more, completes it and leaves all others complete |
| `MrTasks.InputsCollected` | mapreduce/common_reduce.go:62-79 | what a reduce task reads is its buckets of all map tasks, in order of the tasks |
| `MrGroup.CollectedIsBucket` | mapreduce/common_reduce.go:62-79 | that is the bucket of everything emitted |
| `MrGroup.BucketValues` | mapreduce/common_map.go:78-81 | a bucket has all values of its own keys, in order, and nothing of other keys |
| `MrGroup.BucketMembers` | mapreduce/common_map.go:78-81 | a pair is in a bucket exactly if it was emitted and its key's hash leaves the bucket's number |
| `MrGroup.ValueAt` | mapreduce/common_reduce.go:70-76 | a key's values come in the order of its pairs |
| `MrGroup.FlattenAt` | mapreduce/common_reduce.go:62-79 | and pairs in the order of map tasks, then of emission |
| `MrMaster.Merge` | mapreduce/master_splitmerge.go:14-51 | lists the table of all results, each key once, in order; fails when a result file is missing |
| `MrMaster.Sort` | mapreduce/master_splitmerge.go:39 | a permutation in order |
| `MrTasks.MergedIsGroupBy` | mapreduce/master_splitmerge.go:16-34 | the merged table is the direct group-by of everything emitted, for any number of reduce tasks and any hash |
| `MrGroup.ListingUnique` | mapreduce/master_splitmerge.go:35-48 | a table has one listing in order |
| `MrGroup.LessExactly` | mapreduce/master_splitmerge.go:35-39 | keys are in order exactly if one is a proper prefix of the other or smaller at the first difference |
| `MrMaster.MapPhase` | mapreduce/master.go:67-70 | completes every map task |
| `MrMaster.ReducePhase` | mapreduce/master.go:71-74 | completes every reduce task and keeps the map tasks complete |
| `MrMaster.Sequential` | mapreduce/master.go:60-80 | a job run task by task completes all tasks and lists the direct group-by: each key once, in order, its values reduced in map-task then emission order |
| `MrMaster.OutputIndependent` | mapreduce/master.go:132-145 | the output does not depend on the number of reduce tasks or the hash |
| `MrSchedule.OneToken` | mapreduce/schedule.go:52-64 | in every interleaving a registered worker is in exactly one place: not yet announced, offered, or held by one task |
| `MrSchedule.OneTaskPerWorker` | mapreduce/worker.go:44-54 | no worker is ever given two tasks at once |
| `MrSchedule.RunTokens` | mapreduce/master.go:85-101 | forwarding, taking and giving back keep one token per announced worker and none for others |
| `MrSchedule.MapPhaseDone` | mapreduce/schedule.go:43-76 | when the map phase returns, every map task has succeeded and its files are there, whatever was run again |
| `MrSchedule.ReducePhaseDone` | mapreduce/schedule.go:43-76 | when the reduce phase returns, every reduce task has succeeded and its file is there |
| `MrSchedule.DistributedIsGroupBy` | mapreduce/master.go:105-119 | whatever workers, failures and interleavings, the merged table is the direct group-by |
| `MrSchedule.FilesAgree` | mapreduce/master.go:65-76 | after any two ways of running the tasks intermediate files are equal and result files hold the same pairs |
| `MrSchedule.DistributedFiles` | mapreduce/schedule.go:43-76 | the files after two returned phases agree with those of any other complete run |
| `MrSchedule.SequentialPass` | mapreduce/master.go:65-76 | in particular with those of one sequential pass |
| `MrSchedule.ReturnsExactly` | mapreduce/schedule.go:44-50 | over complete map files the reduce phase can return exactly if there are no more reduce tasks than input files |
| `MrSchedule.MapReturns` | mapreduce/schedule.go:43-76 | the map phase can return if there is a reduce task |

## Left out

- Raft's Leader Completeness and State Machine Safety (sections 5.4.2 and 5.4.3 of the Raft paper): the commit loop counts replicas of entries of any term, so they do not follow from this code
- RaftCommit.CommitMajority: covers sound runs with honest replies; outside them it fails, as RaftFalseCommit.CommitAlone shows
- RaftMatching.LogMatching: covers sound runs; for all other runs RaftRecords.MatchingExactly gives the condition
- timers, random timeouts and the liveness of elections: a timeout may happen at any time
- `labrpc` and `labgob`: only loss, delay, reordering and repetition of messages, and saving as a round trip, are modelled
- time limits and `kill` of the checker, which the code documents as possibly wrong, and its result channels: only the conjunction of the results is modelled
- `CheckEvents` with the key/value model: no partition of events is given there, so the single-key step would mix keys
- KvServer.KVServer.Apply: a blocked send is reported, not waited for, so the model does not say when a blocked loop goes on
- KvLinearizable.ServiceLinearizable: gets that are committed but not answered are left out of the history; they have no effect
- Raft's commands are integers that no rule looks at; the key/value entries are not carried through the Raft model but taken as a fixed committed log
- the text form of the MapReduce output, one `key: value` line per pair, and the removal of files
- `shardmaster` and `shardkv`: their servers are empty stubs
- configurations, tests, `main` programs, snapshots (not implemented), file and socket input/output, the FNV hash (any function of the key), debug output
