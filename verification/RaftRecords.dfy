/**
 Exactly when log matching holds, in all runs, sound or not: the only step that can
 break it is a leader's `Start`, and it does exactly when another log already has an
 entry of that term at that index (raft/raft.go:102-122,
 raft/raft_log_replication.go:58-132).
 */
module RaftRecords {
  import opened RaftServer
  import opened RaftCluster
  import opened RaftElection
  import opened RaftLogShape
  import opened RaftMatching

  /** All logs, of servers and of appends in flight, were recorded. */
  ghost predicate RecordInv(g: Cluster) {
    RequestInv(g) && forall m :: m in g.appends ==> m.log in g.histories
  }

  lemma RecordStep(g: Cluster, step: Step)
    requires ElectionInv(g) && RecordInv(g)
    ensures RecordInv(Apply(g, step)) && g.histories <= Apply(g, step).histories
  {
    RequestStep(g, step);
    if Enabled(g, step) && step.SendStep? {
      LogHeld(g, step.v);
    }
    hide RequestInv, ElectionInv, HandleVote, HandleVoteReply;
    hide HandleAppend, HandleAppendReply, StartCommand, Timeout, Restart;
  }

  lemma {:induction false} RunRecords(n: nat, steps: seq<Step>)
    ensures RecordInv(Run(n, steps))
  {
    if steps != [] {
      var k := |steps| - 1;
      RunRecords(n, steps[..k]);
      RunElection(n, steps[..k]);
      hide ElectionInv, RecordInv, Apply;
      RecordStep(Run(n, steps[..k]), steps[k]);
    }
  }

  /** No other recorded log has an entry of that term right after `logs`. */
  ghost predicate NoRival(histories: set<Log>, logs: Log, e: LogEntry) {
    forall h: Log :: h in histories && |h| > |logs| && h[|logs|].term == e.term ==> h[..|logs| + 1] == logs + [e]
  }

  /** If the step appends an entry, the entry has no rival. */
  ghost predicate FreshEntry(g: Cluster, step: Step) {
    step.StartStep? && Enabled(g, step) && g.servers[step.v].role.Leader? ==>
      NoRival(g.histories, g.servers[step.v].logs, LogEntry(step.command, g.servers[step.v].currentTerm))
  }

  lemma ExtendedAgrees(h: Log, logs: Log, e: LogEntry)
    requires Agrees(h, logs)
    ensures Agrees(h, logs + [e]) <==>
      (|h| > |logs| && h[|logs|].term == e.term ==> h[..|logs| + 1] == logs + [e])
  {
    var longer := logs + [e];
    assert longer[..|logs| + 1] == longer;
    if |h| > |logs| && h[|logs|].term == e.term {
      assert longer[|logs|].term == e.term;
      assert Agrees(h, longer) ==> h[..|logs| + 1] == longer[..|logs| + 1];
    }
    forall i | 0 <= i < |h| && i < |logs| && h[i].term == longer[i].term ensures h[..i + 1] == longer[..i + 1] {
      assert h[i].term == logs[i].term;
      assert longer[..i + 1] == logs[..i + 1];
    }
  }

  lemma AgreesSymmetric(a: Log, b: Log)
    requires Agrees(a, b)
    ensures Agrees(b, a)
  {
  }

  lemma ExtensionAgrees(histories: set<Log>, logs: Log, e: LogEntry)
    requires AllAgree(histories) && logs in histories
    ensures AllAgree(histories + {logs + [e]}) <==> NoRival(histories, logs, e)
  {
    var longer := logs + [e];
    var more := histories + {longer};
    forall h: Log | h in histories
      ensures Agrees(h, longer) <==> (|h| > |logs| && h[|logs|].term == e.term ==> h[..|logs| + 1] == longer)
    {
      ExtendedAgrees(h, logs, e);
    }
    if AllAgree(more) {
      forall h: Log | h in histories ensures Agrees(h, longer) {
        assert h in more && longer in more;
      }
    }
    if NoRival(histories, logs, e) {
      forall a, b | a in more && b in more ensures Agrees(a, b) {
        ExtendedPair(histories, longer, a, b);
      }
    }
  }

  lemma ExtendedPair(histories: set<Log>, longer: Log, a: Log, b: Log)
    requires AllAgree(histories) && (forall h :: h in histories ==> Agrees(h, longer))
    requires a in histories + {longer} && b in histories + {longer}
    ensures Agrees(a, b)
  {
    if a == longer && b in histories {
      AgreesSymmetric(b, longer);
    }
  }

  lemma FewerAgree(some: set<Log>, more: set<Log>)
    requires some <= more && AllAgree(more)
    ensures AllAgree(some)
  {
  }

  /** One step keeps log matching exactly if what it appends has no rival. */
  lemma MatchingStep(g: Cluster, step: Step)
    requires RecordInv(g) && ShapeInv(g) && AllAgree(g.histories)
    ensures AllAgree(Apply(g, step).histories) <==> FreshEntry(g, step)
  {
    hide AllAgree, NoRival, HandleVote, HandleVoteReply, HandleAppend, HandleAppendReply, Timeout, Restart;
    if Enabled(g, step) {
      match step
      case StartStep(v, command) =>
        LogHeld(g, v);
        if g.servers[v].role.Leader? {
          ExtensionAgrees(g.histories, g.servers[v].logs, LogEntry(command, g.servers[v].currentTerm));
        } else {
          SameHistories(g, g.servers[v].logs);
        }
      case AppendStep(sent) => AppendRecorded(g, sent);
      case _ =>
    }
  }

  lemma AppendRecorded(g: Cluster, m: Sent)
    requires RecordInv(g) && ShapeInv(g) && AllAgree(g.histories) && Enabled(g, AppendStep(m))
    ensures DoAppend(g, m).histories == g.histories
  {
    LogHeld(g, m.to);
    assert SentOk(m) && Agrees(g.servers[m.to].logs, m.log);
    AppendLog(g.servers[m.to], m);
    hide HandleAppend, RecordInv, ShapeInv, AllAgree;
    SameHistories(g, HandleAppend(g.servers[m.to], m.args).0.logs);
  }

  ghost predicate AllFresh(n: nat, steps: seq<Step>) {
    forall k :: 0 <= k < |steps| ==> FreshEntry(Run(n, steps[..k]), steps[k])
  }

  lemma PrefixesFresh(n: nat, steps: seq<Step>, k: nat)
    requires steps != [] && k == |steps| - 1
    ensures AllFresh(n, steps) <==> AllFresh(n, steps[..k]) && FreshEntry(Run(n, steps[..k]), steps[k])
  {
    hide FreshEntry, Run;
    forall j | 0 <= j < k ensures steps[..k][..j] == steps[..j] {
    }
    if AllFresh(n, steps[..k]) {
      forall j | 0 <= j < k ensures FreshEntry(Run(n, steps[..j]), steps[j]) {
        assert FreshEntry(Run(n, steps[..k][..j]), steps[..k][j]);
      }
    }
  }

  /** In every run: any two logs ever held agree up to every entry they share by index
      and term, exactly if no entry was ever appended next to a rival. */
  lemma {:induction false} MatchingExactly(n: nat, steps: seq<Step>)
    ensures AllAgree(Run(n, steps).histories) <==> AllFresh(n, steps)
  {
    if steps != [] {
      var k := |steps| - 1;
      var g := Run(n, steps[..k]);
      MatchingExactly(n, steps[..k]);
      RunRecords(n, steps[..k]);
      RunShape(n, steps[..k]);
      RunElection(n, steps[..k]);
      hide AllAgree, AllFresh, FreshEntry, RecordInv, ShapeInv, ElectionInv, Apply;
      RecordStep(g, steps[k]);
      if AllAgree(Apply(g, steps[k]).histories) {
        FewerAgree(g.histories, Apply(g, steps[k]).histories);
      }
      if AllAgree(g.histories) {
        MatchingStep(g, steps[k]);
      }
      PrefixesFresh(n, steps, k);
    }
  }
}
