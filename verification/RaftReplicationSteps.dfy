/** The steps of replication, commit and apply keep the invariant. */
module RaftReplicationSteps {
  import opened RaftTypes
  import opened RaftHandlers
  import opened RaftCluster
  import opened RaftInvariant
  import opened RaftHistory
  import opened RaftCompleteness
  import opened RaftFrames
  import opened RaftElectionSteps

  // ---------- Start ----------

  lemma ProposeKeepsAcks(servers: set<NodeId>, h: History, i: NodeId, n: Node, e: Entry)
    requires DurableOk(n) && AcksKept(h, i, n) && LeaderOk(servers, h, i, n) && n.role == Leader
    requires ExtendedBy(h, RecordProposal(h, i, n.term, n.log + [e]), i)
    ensures AcksKept(RecordProposal(h, i, n.term, n.log + [e]), i, Persist(n.(log := n.log + [e])))
  {
    var h' := RecordProposal(h, i, n.term, n.log + [e]);
    var n' := Persist(n.(log := n.log + [e]));
    forall t: Term, k: nat | AckedEntry(h', i, t, k) ensures AckKept(h', i, n', t, k) {
      if t != n.term {
        assert AckedEntry(h, i, t, k) && AckKept(h, i, n, t, k);
        if !Agree(h.terms[t].log, n.log, k + 1) {
          SupersededExtends(h, h', i, t, k, n.term, n.term);
        }
      }
    }
  }

  lemma ProposeKeepsNode(servers: set<NodeId>, h: History, i: NodeId, n: Node, e: Entry)
    requires HistoryInv(servers, h) && NodeInv(servers, h, i, n) && n.role == Leader && e.term == n.term
    requires ExtendedBy(h, RecordProposal(h, i, n.term, n.log + [e]), i)
    requires ElectionsOk(servers, RecordProposal(h, i, n.term, n.log + [e]))
    ensures NodeInv(servers, RecordProposal(h, i, n.term, n.log + [e]), i, Persist(n.(log := n.log + [e])))
  {
    var h' := RecordProposal(h, i, n.term, n.log + [e]);
    var n' := Persist(n.(log := n.log + [e]));
    assert ElectionOk(servers, h', n.term);
    assert h'.terms[n.term].log == n'.log;
    ProposeKeepsAcks(servers, h, i, n, e);
    KnownCommittedExtends(h, h', i, n.log, n.commitIndex, n.term, n.term);
    SameLogKnown(h', n.log, n'.log, n.commitIndex, n.term);
  }

  lemma StartKeeps(servers: set<NodeId>, h: History, i: NodeId, n: Node, command: Command)
    requires i in servers && HistoryInv(servers, h) && NodeInv(servers, h, i, n)
    ensures StepOk(servers, h, i, OnStart(i, n, h, command))
  {
    if n.role == Leader {
      var e := Entry(n.term, command);
      ProposalKeepsHistory(servers, h, i, n.term, e);
      ProposeKeepsNode(servers, h, i, n, e);
    } else {
      assert ExtendedBy(h, h, i);
    }
  }

  // ---------- the send half of replicateTo ----------

  /** A leader's request can always be built, and is a slice of its log reaching its commit index. */
  lemma RequestIsSlice(servers: set<NodeId>, h: History, i: NodeId, n: Node, peer: NodeId)
    requires NodeInv(servers, h, i, n) && n.role == Leader && peer in Peers(servers, i)
    ensures AppendFor(i, n, peer).Some? && AppendOk(h, AppendFor(i, n, peer).value)
    ensures AppendFor(i, n, peer).value.leader == i
  {
    var next := n.nextIndex[peer];
    assert 1 <= next <= |n.log|;
    assert n.log[next..] == n.log[next..next + |n.log[next..]|];
  }

  lemma SendKeeps(servers: set<NodeId>, h: History, i: NodeId, n: Node, peer: NodeId)
    requires HistoryInv(servers, h) && NodeInv(servers, h, i, n) && peer in Peers(servers, i)
    ensures StepOk(servers, h, i, OnSend(i, n, h, peer))
  {
    assert ExtendedBy(h, h, i);
    if n.role == Leader {
      RequestIsSlice(servers, h, i, n, peer);
    }
  }

  // ---------- AppendEntries: the merge ----------

  lemma {:induction false} FirstNewMatches(log: Log, prev: nat, entries: seq<Entry>, i: nat)
    requires prev < |log| && i <= |entries|
    ensures var k := FirstNew(log, prev, entries, i);
            && (forall j :: i <= j < k ==> prev + 1 + j < |log| && log[prev + 1 + j].term == entries[j].term)
            && (k < |entries| && prev + 1 + k < |log| ==> log[prev + 1 + k].term != entries[k].term)
    decreases |entries| - i
  {
    if i < |entries| && prev + 1 + i < |log| && log[prev + 1 + i].term == entries[i].term {
      FirstNewMatches(log, prev, entries, i + 1);
    }
  }

  /** `entries` is the slice of `leader` just after `prev`, and the logs agree up to `prev`. */
  ghost predicate Anchored(log: Log, leader: Log, prev: nat, entries: seq<Entry>) {
    && prev < |log| && prev + 1 + |entries| <= |leader|
    && Agree(log, leader, prev + 1)
    && leader[prev + 1..prev + 1 + |entries|] == entries
  }

  /** When the merge keeps the log as it is, every entry sent was already there. */
  lemma MergeNothingNew(terms: map<Term, Election>, log: Log, leader: Log, prev: nat, entries: seq<Entry>)
    requires GoodLog(terms, log) && GoodLog(terms, leader)
    requires Anchored(log, leader, prev, entries) && FirstNew(log, prev, entries, 0) == |entries|
    ensures Agree(log, leader, prev + 1 + |entries|)
  {
    FirstNewMatches(log, prev, entries, 0);
    if |entries| > 0 {
      var last := prev + |entries|;
      assert leader[last] == entries[|entries| - 1];
      LogMatching(terms, log, leader, last);
    }
  }

  /** Otherwise the result is a prefix of the leader's log, and keeps all the two already shared. */
  lemma MergeFollowsLeader(terms: map<Term, Election>, log: Log, leader: Log, prev: nat, entries: seq<Entry>)
    requires GoodLog(terms, log) && GoodLog(terms, leader)
    requires Anchored(log, leader, prev, entries) && FirstNew(log, prev, entries, 0) < |entries|
    ensures |Merge(log, prev, entries)| == prev + 1 + |entries|
    ensures Agree(Merge(log, prev, entries), leader, prev + 1 + |entries|)
    ensures forall k :: 0 <= k && Agree(log, leader, k) ==> k <= prev + 1 + FirstNew(log, prev, entries, 0)
  {
    FirstNewMatches(log, prev, entries, 0);
    var k := FirstNew(log, prev, entries, 0);
    var merged := Merge(log, prev, entries);
    assert leader[prev + 1 + k] == entries[k];
    if k > 0 {
      assert leader[prev + k] == entries[k - 1];
      LogMatching(terms, log, leader, prev + k);
    }
    assert Agree(log, leader, prev + 1 + k);
    forall j | 0 <= j < |merged| ensures merged[j] == leader[j] {
      if j >= prev + 1 + k {
        assert leader[j] == entries[j - prev - 1];
      }
    }
  }

  lemma PrefixOfGoodLog(terms: map<Term, Election>, log: Log, leader: Log)
    requires GoodLog(terms, leader) && Agree(log, leader, |log|)
    ensures GoodLog(terms, log)
  {
    forall k | 0 < k < |log| ensures EntryBacked(terms, log, k) {
      assert EntryBacked(terms, leader, k);
    }
  }

  /** What the rest of the proof needs to know about a successful merge. */
  lemma MergeFacts(terms: map<Term, Election>, log: Log, leader: Log, prev: nat, entries: seq<Entry>)
    requires GoodLog(terms, log) && GoodLog(terms, leader)
    requires Anchored(log, leader, prev, entries)
    ensures var merged := Merge(log, prev, entries);
            && GoodLog(terms, merged)
            && Agree(merged, leader, prev + 1 + |entries|)
            && (merged == log || Agree(merged, leader, |merged|))
    ensures forall k: nat :: Agree(log, leader, k) ==> Agree(Merge(log, prev, entries), leader, k)
  {
    var merged := Merge(log, prev, entries);
    if FirstNew(log, prev, entries, 0) == |entries| {
      MergeNothingNew(terms, log, leader, prev, entries);
    } else {
      MergeFollowsLeader(terms, log, leader, prev, entries);
      PrefixOfGoodLog(terms, merged, leader);
    }
  }

  // ---------- AppendEntries: the step ----------

  /** The node just before the merge: at the request's term, a follower, the durable term possibly behind. */
  ghost predicate Receives(servers: set<NodeId>, h: History, i: NodeId, n: Node, a: AppendArgs) {
    && i in servers && HistoryInv(servers, h) && NodeInv(servers, h, i, n)
    && AppendOk(h, a)
    && n.term == a.term && n.role == Follower
    && a.prevIndex < |n.log| && n.log[a.prevIndex].term == a.prevTerm
  }

  lemma ReceivedIsAnchored(servers: set<NodeId>, h: History, i: NodeId, n: Node, a: AppendArgs)
    requires Receives(servers, h, i, n, a)
    ensures GoodLog(h.terms, h.terms[a.term].log)
    ensures Anchored(n.log, h.terms[a.term].log, a.prevIndex, a.entries)
  {
    assert ElectionOk(servers, h, a.term);
    LogMatching(h.terms, n.log, h.terms[a.term].log, a.prevIndex);
  }

  function Adopted(n: Node, a: AppendArgs, persist: bool): Node
    requires a.prevIndex < |n.log|
  {
    var commit := if a.leaderCommit > n.commitIndex
                  then Min(a.leaderCommit, a.prevIndex + |a.entries|) else n.commitIndex;
    PersistIf(persist || FirstNew(n.log, a.prevIndex, a.entries, 0) < |a.entries|,
              n.(log := Merge(n.log, a.prevIndex, a.entries), commitIndex := commit))
  }

  /** The merged log holds everything the node or the request knows to be committed. */
  lemma MergedHoldsKnown(servers: set<NodeId>, h: History, i: NodeId, n: Node, a: AppendArgs)
    requires Receives(servers, h, i, n, a)
    ensures var leader, merged := h.terms[a.term].log, Merge(n.log, a.prevIndex, a.entries);
            && Agree(merged, leader, a.prevIndex + 1 + |a.entries|)
            && Agree(merged, leader, n.commitIndex + 1) && Agree(n.log, merged, n.commitIndex + 1)
  {
    var leader := h.terms[a.term].log;
    ReceivedIsAnchored(servers, h, i, n, a);
    MergeFacts(h.terms, n.log, leader, a.prevIndex, a.entries);
    LeaderHoldsKnown(servers, h, n.log, n.commitIndex, a.term);
  }

  /** The follower's minimum never binds, and what it takes to be committed is. */
  lemma AdoptKeepsCommit(servers: set<NodeId>, h: History, i: NodeId, n: Node, a: AppendArgs, persist: bool)
    requires Receives(servers, h, i, n, a)
    ensures CommitIndexOk(h, Adopted(n, a, persist))
    ensures Adopted(n, a, persist).commitIndex ==
            if a.leaderCommit > n.commitIndex then a.leaderCommit else n.commitIndex
    ensures Agree(n.log, Merge(n.log, a.prevIndex, a.entries), n.commitIndex + 1)
  {
    MergedHoldsKnown(servers, h, i, n, a);
    MergedCommit(h, n, a, persist);
  }

  lemma MergedCommit(h: History, n: Node, a: AppendArgs, persist: bool)
    requires AppendOk(h, a) && CommitIndexOk(h, n) && n.term == a.term && a.prevIndex < |n.log|
    requires var leader, merged := h.terms[a.term].log, Merge(n.log, a.prevIndex, a.entries);
             && Agree(merged, leader, a.prevIndex + 1 + |a.entries|)
             && Agree(n.log, merged, n.commitIndex + 1)
    ensures CommitIndexOk(h, Adopted(n, a, persist))
    ensures Adopted(n, a, persist).commitIndex ==
            if a.leaderCommit > n.commitIndex then a.leaderCommit else n.commitIndex
  {
    var leader, merged := h.terms[a.term].log, Merge(n.log, a.prevIndex, a.entries);
    if a.leaderCommit > n.commitIndex {
      SameLogKnown(h, leader, merged, a.leaderCommit, a.term);
    } else {
      SameLogKnown(h, n.log, merged, n.commitIndex, a.term);
    }
  }

  /** Acknowledged entries survive the merge, or the request's leader is the one that lacked them. */
  lemma AdoptKeepsAcks(servers: set<NodeId>, h: History, i: NodeId, n: Node, a: AppendArgs, persist: bool)
    requires Receives(servers, h, i, n, a)
    ensures AcksKept(RecordAck(h, i, a.term, a.prevIndex + |a.entries|), i, Adopted(n, a, persist))
  {
    var n' := Adopted(n, a, persist);
    var h' := RecordAck(h, i, a.term, a.prevIndex + |a.entries|);
    forall t: Term, k: nat | AckedEntry(h', i, t, k) ensures AckKept(h', i, n', t, k) {
      if AckedEntry(h, i, t, k) {
        OldAckKept(servers, h, i, n, a, persist, t, k);
      } else {
        NewAckKept(servers, h, i, n, a, persist, k);
      }
    }
  }

  lemma NewAckKept(servers: set<NodeId>, h: History, i: NodeId, n: Node, a: AppendArgs, persist: bool, k: nat)
    requires Receives(servers, h, i, n, a) && k <= a.prevIndex + |a.entries| && h.terms[a.term].log[k].term == a.term
    ensures var n' := Adopted(n, a, persist);
            a.term <= Recovered(n'.disk).term && Agree(h.terms[a.term].log, n'.log, k + 1)
  {
    var n' := Adopted(n, a, persist);
    ReceivedIsAnchored(servers, h, i, n, a);
    MergeFacts(h.terms, n.log, h.terms[a.term].log, a.prevIndex, a.entries);
    DurableTermLags(n);
    assert n'.log[k].term == a.term;
  }

  lemma OldAckKept(servers: set<NodeId>, h: History, i: NodeId, n: Node, a: AppendArgs, persist: bool, t: Term, k: nat)
    requires Receives(servers, h, i, n, a) && AckedEntry(h, i, t, k)
    ensures AckKept(h, i, Adopted(n, a, persist), t, k)
  {
    var n' := Adopted(n, a, persist);
    assert AckKept(h, i, n, t, k);
    DurableTermLags(n);
    if Agree(h.terms[t].log, n.log, k + 1) {
      OldAckSurvives(servers, h, i, n, a, persist, t, k);
    } else {
      assert TermsExtend(h, h, i);
      SupersededExtends(h, h, i, t, k, Recovered(n.disk).term, Recovered(n'.disk).term);
    }
  }

  lemma OldAckSurvives(servers: set<NodeId>, h: History, i: NodeId, n: Node, a: AppendArgs, persist: bool,
                       t: Term, k: nat)
    requires Receives(servers, h, i, n, a) && AckedEntry(h, i, t, k) && Agree(h.terms[t].log, n.log, k + 1)
    ensures var n' := Adopted(n, a, persist);
            Agree(h.terms[t].log, n'.log, k + 1) || Superseded(h.terms, t, k, Recovered(n'.disk).term)
  {
    var leader := h.terms[a.term].log;
    var n' := Adopted(n, a, persist);
    ReceivedIsAnchored(servers, h, i, n, a);
    MergeFacts(h.terms, n.log, leader, a.prevIndex, a.entries);
    DurableTermLags(n);
    if n'.log != n.log {
      assert Recovered(n'.disk).term == a.term;
      if Agree(n.log, leader, k + 1) {
        assert Agree(n'.log, leader, k + 1);
      } else {
        assert t < a.term;
        assert ElectionOk(servers, h, a.term);
        assert !Agree(h.terms[t].log, h.terms[a.term].start, k + 1);
      }
    }
  }

  lemma AdoptKeepsNode(servers: set<NodeId>, h: History, i: NodeId, n: Node, a: AppendArgs, persist: bool)
    requires Receives(servers, h, i, n, a)
    requires ExtendedBy(h, RecordAck(h, i, a.term, a.prevIndex + |a.entries|), i)
    ensures NodeInv(servers, RecordAck(h, i, a.term, a.prevIndex + |a.entries|), i, Adopted(n, a, persist))
  {
    var h' := RecordAck(h, i, a.term, a.prevIndex + |a.entries|);
    var n' := Adopted(n, a, persist);
    AdoptKeepsCommit(servers, h, i, n, a, persist);
    KnownCommittedExtends(h, h', i, n'.log, n'.commitIndex, n'.term, n'.term);
    AdoptKeepsAcks(servers, h, i, n, a, persist);
    AdoptKeepsLog(servers, h, i, n, a, persist);
    AdoptKeepsPromises(servers, h, i, n, a, persist);
  }

  lemma AdoptKeepsPromises(servers: set<NodeId>, h: History, i: NodeId, n: Node, a: AppendArgs, persist: bool)
    requires Receives(servers, h, i, n, a)
    ensures PromisesKept(RecordAck(h, i, a.term, a.prevIndex + |a.entries|), i, Adopted(n, a, persist))
  {
    DurableTermLags(n);
  }

  lemma AdoptKeepsLog(servers: set<NodeId>, h: History, i: NodeId, n: Node, a: AppendArgs, persist: bool)
    requires Receives(servers, h, i, n, a)
    ensures LogOk(h, Adopted(n, a, persist)) && DurableOk(Adopted(n, a, persist))
  {
    ReceivedIsAnchored(servers, h, i, n, a);
    MergeFacts(h.terms, n.log, h.terms[a.term].log, a.prevIndex, a.entries);
    assert ElectionOk(servers, h, a.term);
    AdoptKeepsDurable(n, a, persist);
    AdoptKeepsBelow(n, h.terms[a.term].log, a, persist);
  }

  lemma AdoptKeepsDurable(n: Node, a: AppendArgs, persist: bool)
    requires DurableOk(n) && n.role == Follower && a.prevIndex < |n.log|
    ensures DurableOk(Adopted(n, a, persist))
  {
  }

  lemma AdoptKeepsBelow(n: Node, leader: Log, a: AppendArgs, persist: bool)
    requires DurableOk(n) && n.term == a.term && a.prevIndex < |n.log|
    requires Below(n.log, Recovered(n.disk).term + 1) && Below(leader, a.term + 1)
    requires var merged := Merge(n.log, a.prevIndex, a.entries); merged == n.log || Agree(merged, leader, |merged|)
    ensures Below(Adopted(n, a, persist).log, Recovered(Adopted(n, a, persist).disk).term + 1)
  {
    DurableTermLags(n);
  }

  lemma AdoptKeeps(servers: set<NodeId>, h: History, i: NodeId, n: Node, a: AppendArgs, persist: bool)
    requires Receives(servers, h, i, n, a) && i != a.leader
    ensures StepOk(servers, h, i, Effect(Adopted(n, a, persist), {AppendAnswer(i, a, AppendReply(a.term, true, 0))},
                                         RecordAck(h, i, a.term, a.prevIndex + |a.entries|)))
  {
    AdoptKeepsHistory(servers, h, i, n, a);
    AdoptKeepsNode(servers, h, i, n, a, persist);
    AdoptAnswerOk(servers, h, i, n, a);
  }

  lemma AdoptKeepsHistory(servers: set<NodeId>, h: History, i: NodeId, n: Node, a: AppendArgs)
    requires Receives(servers, h, i, n, a)
    ensures HistoryInv(servers, RecordAck(h, i, a.term, a.prevIndex + |a.entries|))
    ensures ExtendedBy(h, RecordAck(h, i, a.term, a.prevIndex + |a.entries|), i)
  {
    DurableTermLags(n);
    AckKeepsHistory(servers, h, i, a.term, a.prevIndex + |a.entries|);
  }

  lemma AdoptAnswerOk(servers: set<NodeId>, h: History, i: NodeId, n: Node, a: AppendArgs)
    requires Receives(servers, h, i, n, a) && i != a.leader
    requires ExtendedBy(h, RecordAck(h, i, a.term, a.prevIndex + |a.entries|), i)
    ensures MessageOk(servers, RecordAck(h, i, a.term, a.prevIndex + |a.entries|),
                      AppendAnswer(i, a, AppendReply(a.term, true, 0)))
  {
    AppendOkExtends(h, RecordAck(h, i, a.term, a.prevIndex + |a.entries|), i, a);
  }

  /** A request of the node's own term finds it a follower or candidate, never the leader. */
  lemma BecomeFollowerKeeps(servers: set<NodeId>, h: History, i: NodeId, n: Node, a: AppendArgs)
    requires HistoryInv(servers, h) && NodeInv(servers, h, i, n)
    requires AppendOk(h, a) && i != a.leader && n.term <= a.term
    ensures NodeInv(servers, h, i, Arrived(n, a))
    ensures NodeInv(servers, h, i, PersistIf(a.term > n.term, Arrived(n, a)))
  {
    if a.term > n.term {
      StepDownKeeps(servers, h, i, n, a.term, false);
      StepDownKeeps(servers, h, i, n, a.term, true);
    } else {
      assert TermsExtend(h, h, i);
      AcksStayKept(h, h, i, i, n, Arrived(n, a));
    }
  }

  function Arrived(n: Node, a: AppendArgs): Node {
    (if a.term > n.term then StepDown(n, a.term) else n).(role := Follower)
  }

  lemma {:induction false} RunStartBounds(log: seq<Entry>, i: nat, t: Term)
    requires 1 <= i < |log|
    ensures 1 <= RunStart(log, i, t) <= i
  {
    if i > 1 && log[i - 1].term == t {
      RunStartBounds(log, i - 1, t);
    }
  }

  /** A rejection that is not about the term names an index between 1 and the one probed. */
  lemma RejectionBounds(servers: set<NodeId>, h: History, n: Node, a: AppendArgs)
    requires ElectionsOk(servers, h) && AppendOk(h, a) && n.log[0] == SENTINEL
    requires n.term <= a.term && !AppendEntries(n, a).1.success
    ensures 1 <= AppendEntries(n, a).1.conflictIndex <= a.prevIndex
  {
    assert ElectionOk(servers, h, a.term);
    if a.prevIndex < |n.log| {
      RunStartBounds(n.log, a.prevIndex, n.log[a.prevIndex].term);
    }
  }

  lemma AppendShape(i: NodeId, n: Node, h: History, a: AppendArgs)
    ensures var f, m := OnAppend(i, n, h, a), Arrived(n, a);
      if a.term < n.term then f == Effect(n, {AppendAnswer(i, a, AppendReply(n.term, false, 0))}, h)
      else if AppendEntries(n, a).1.success then
        && a.prevIndex < |m.log| && m.log[a.prevIndex].term == a.prevTerm
        && f == Effect(Adopted(m, a, a.term > n.term), {AppendAnswer(i, a, AppendReply(a.term, true, 0))},
                       RecordAck(h, i, a.term, a.prevIndex + |a.entries|))
      else
        && AppendEntries(n, a).1.term == a.term
        && f == Effect(PersistIf(a.term > n.term, m), {AppendAnswer(i, a, AppendEntries(n, a).1)}, h)
  {
  }

  lemma AppendKeeps(servers: set<NodeId>, h: History, i: NodeId, n: Node, a: AppendArgs)
    requires i in servers && HistoryInv(servers, h) && NodeInv(servers, h, i, n)
    requires AppendOk(h, a) && i != a.leader
    ensures StepOk(servers, h, i, OnAppend(i, n, h, a))
  {
    assert ExtendedBy(h, h, i);
    AppendShape(i, n, h, a);
    if n.term <= a.term {
      BecomeFollowerKeeps(servers, h, i, n, a);
      if AppendEntries(n, a).1.success {
        AdoptKeeps(servers, h, i, Arrived(n, a), a, a.term > n.term);
      } else {
        RejectionBounds(servers, h, n, a);
      }
    }
  }

  // ---------- the reply half of replicateTo ----------

  lemma {:induction false} CommitPointIsHighest(peers: set<NodeId>, n: Node, k: nat)
    requires k < |n.log|
    ensures var c := CommitPoint(peers, n, k);
            && n.commitIndex <= c
            && (c == n.commitIndex || (c <= k && Committable(peers, n, c)))
            && (forall j :: c < j <= k ==> !Committable(peers, n, j))
  {
    if n.commitIndex < k && !Committable(peers, n, k) {
      CommitPointIsHighest(peers, n, k - 1);
    }
  }

  lemma CountedIsQuorum(servers: set<NodeId>, h: History, i: NodeId, n: Node, k: nat)
    requires i in servers && LeaderOk(servers, h, i, n) && n.role == Leader
    requires 0 < k < |n.log| && Committable(Peers(servers, i), n, k)
    ensures IsQuorum(servers, {i} + Matching(Peers(servers, i), n, k))
    ensures forall v <- {i} + Matching(Peers(servers, i), n, k) :: AckedEntry(h, v, n.term, k)
  {
    var q := {i} + Matching(Peers(servers, i), n, k);
    assert |q| == 1 + |Matching(Peers(servers, i), n, k)|;
    MajorityIsQuorum(servers, i, q);
  }

  lemma CommitKeeps(servers: set<NodeId>, h: History, i: NodeId, n: Node, k: nat)
    requires i in servers && HistoryInv(servers, h) && NodeInv(servers, h, i, n) && n.role == Leader
    requires n.commitIndex < k < |n.log| && Committable(Peers(servers, i), n, k)
    ensures StepOk(servers, h, i, Effect(n.(commitIndex := k), {},
                     RecordCommit(h, n.term, k, {i} + Matching(Peers(servers, i), n, k))))
  {
    var q := {i} + Matching(Peers(servers, i), n, k);
    var h' := RecordCommit(h, n.term, k, q);
    var n' := n.(commitIndex := k);
    CountedIsQuorum(servers, h, i, n, k);
    CommitKeepsHistory(servers, h, i, n.term, k, q);
    AcksStayKept(h, h', i, i, n, n');
    assert KnownCommitted(h', n.log, k, n.term) by {
      assert Commit(n.term, k, q) in h'.commits;
    }
  }

  function Progressed(n: Node, peer: NodeId, match': nat): Node {
    n.(matchIndex := n.matchIndex[peer := match'], nextIndex := n.nextIndex[peer := match' + 1])
  }

  lemma ProgressKeeps(servers: set<NodeId>, h: History, i: NodeId, n: Node, peer: NodeId, match': nat)
    requires HistoryInv(servers, h) && NodeInv(servers, h, i, n) && n.role == Leader
    requires match' < |n.log|
    requires (peer, n.term) in h.acks && match' <= h.acks[(peer, n.term)]
    ensures NodeInv(servers, h, i, Progressed(n, peer, match'))
  {
    assert TermsExtend(h, h, i);
    AcksStayKept(h, h, i, i, n, Progressed(n, peer, match'));
  }

  lemma BackupKeeps(servers: set<NodeId>, h: History, i: NodeId, n: Node, peer: NodeId, next: nat)
    requires HistoryInv(servers, h) && NodeInv(servers, h, i, n) && n.role == Leader
    requires 1 <= next <= |n.log|
    ensures StepOk(servers, h, i, Effect(n.(nextIndex := n.nextIndex[peer := next]), {}, h))
  {
    assert TermsExtend(h, h, i);
    AcksStayKept(h, h, i, i, n, n.(nextIndex := n.nextIndex[peer := next]));
    QuietKeeps(servers, h, i, n.(nextIndex := n.nextIndex[peer := next]));
  }

  /** The effect of counting anew: a commit is recorded exactly when the commit index moves. */
  function Counted(servers: set<NodeId>, i: NodeId, n: Node, h: History): Effect {
    var n' := AdvanceCommit(Peers(servers, i), n);
    Effect(n', {},
           if n'.commitIndex > n.commitIndex
           then RecordCommit(h, n'.term, n'.commitIndex, {i} + Matching(Peers(servers, i), n', n'.commitIndex))
           else h)
  }

  lemma CountKeeps(servers: set<NodeId>, h: History, i: NodeId, n: Node)
    requires i in servers && HistoryInv(servers, h) && NodeInv(servers, h, i, n) && n.role == Leader
    ensures StepOk(servers, h, i, Counted(servers, i, n, h))
  {
    var peers := Peers(servers, i);
    var k := CommitPoint(peers, n, LastIndex(n.log));
    CommitPointIsHighest(peers, n, LastIndex(n.log));
    if k > n.commitIndex {
      assert Matching(peers, n.(commitIndex := k), k) == Matching(peers, n, k);
      CommitKeeps(servers, h, i, n, k);
    } else {
      assert n.(commitIndex := k) == n;
      assert ExtendedBy(h, h, i);
    }
  }

  lemma AppendAnswerShape(servers: set<NodeId>, h: History, i: NodeId, n: Node,
                          from: NodeId, a: AppendArgs, r: AppendReply, match': nat)
    requires !r.success && r.term <= n.term && n.term == a.term ==> r.conflictIndex > 0
    requires match' == a.prevIndex + |a.entries|
    ensures OnAppendAnswer(servers, i, n, h, from, a, r) ==
      if n.role != Leader || n.term != a.term then Effect(n, {}, h)
      else if r.term > n.term then Effect(StepDown(n, r.term), {}, h)
      else if r.success then Counted(servers, i, Progressed(n, from, match'), h)
      else Effect(n.(nextIndex := n.nextIndex[from := r.conflictIndex]), {}, h)
  {
  }

  lemma SuccessKeeps(servers: set<NodeId>, h: History, i: NodeId, n: Node, from: NodeId, match': nat)
    requires i in servers && HistoryInv(servers, h) && NodeInv(servers, h, i, n)
    requires n.role == Leader && match' < |n.log|
    requires (from, n.term) in h.acks && match' <= h.acks[(from, n.term)]
    ensures StepOk(servers, h, i, Counted(servers, i, Progressed(n, from, match'), h))
  {
    ProgressKeeps(servers, h, i, n, from, match');
    CountKeeps(servers, h, i, Progressed(n, from, match'));
  }

  lemma MatchIsInLog(servers: set<NodeId>, h: History, i: NodeId, n: Node, a: AppendArgs)
    requires LeaderOk(servers, h, i, n) && n.role == Leader && n.term == a.term && AppendOk(h, a)
    ensures a.prevIndex + |a.entries| < |n.log|
  {
  }

  lemma QuietKeeps(servers: set<NodeId>, h: History, i: NodeId, n: Node)
    requires HistoryInv(servers, h) && NodeInv(servers, h, i, n)
    ensures StepOk(servers, h, i, Effect(n, {}, h))
  {
    assert ExtendedBy(h, h, i);
  }

  lemma AppendAnswerKeeps(servers: set<NodeId>, h: History, i: NodeId, n: Node,
                          from: NodeId, a: AppendArgs, r: AppendReply)
    requires i in servers && HistoryInv(servers, h) && NodeInv(servers, h, i, n)
    requires i == a.leader && AppendAnswerOk(servers, h, from, a, r)
    ensures StepOk(servers, h, i, OnAppendAnswer(servers, i, n, h, from, a, r))
  {
    var match' := a.prevIndex + |a.entries|;
    AppendAnswerShape(servers, h, i, n, from, a, r, match');
    if n.role != Leader || n.term != a.term {
      QuietKeeps(servers, h, i, n);
    } else if r.term > n.term {
      StepDownKeeps(servers, h, i, n, r.term, false);
      QuietKeeps(servers, h, i, StepDown(n, r.term));
    } else if r.success {
      MatchIsInLog(servers, h, i, n, a);
      SuccessKeeps(servers, h, i, n, from, match');
    } else {
      BackupKeeps(servers, h, i, n, from, r.conflictIndex);
    }
  }

  // ---------- apply ----------

  lemma ApplyKeeps(servers: set<NodeId>, h: History, i: NodeId, n: Node)
    requires HistoryInv(servers, h) && NodeInv(servers, h, i, n) && CanApply(n)
    ensures StepOk(servers, h, i, OnApply(i, n, h))
    ensures ApplyNext(n).1.Some?
  {
    var k := n.lastApplied + 1;
    LowerIsKnown(h, n.log, k, n.commitIndex, n.term);
    ApplyKeepsHistory(servers, h, i, k, n.log[k].command, n.log, n.term);
    ApplyKeepsNode(servers, h, i, n, n.log[k].command);
  }

  lemma ApplyKeepsNode(servers: set<NodeId>, h: History, i: NodeId, n: Node, command: Command)
    requires NodeInv(servers, h, i, n) && CanApply(n)
    requires ExtendedBy(h, RecordApply(h, i, n.lastApplied + 1, command), i)
    ensures NodeInv(servers, RecordApply(h, i, n.lastApplied + 1, command), i, n.(lastApplied := n.lastApplied + 1))
  {
    var h', n' := RecordApply(h, i, n.lastApplied + 1, command), n.(lastApplied := n.lastApplied + 1);
    AcksStayKept(h, h', i, i, n, n');
    KnownCommittedExtends(h, h', i, n.log, n.commitIndex, n.term, n.term);
  }

  lemma LowerIsKnown(h: History, log: Log, j: nat, k: nat, t: Term)
    requires KnownCommitted(h, log, k, t) && j <= k
    ensures KnownCommitted(h, log, j, t)
  {
    if k != 0 {
      var c :| c in h.commits && c.term <= t && c.term in h.terms
               && k <= c.index && Agree(log, h.terms[c.term].log, k + 1);
      assert Agree(log, h.terms[c.term].log, j + 1);
    }
  }
}
