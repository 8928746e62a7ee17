/** What a step of one node leaves true of the other nodes and of the messages already sent. */
module RaftFrames {
  import opened RaftTypes
  import opened RaftHandlers
  import opened RaftCluster
  import opened RaftInvariant
  import opened RaftHistory

  /** A node whose log is unchanged and whose durable term has not gone back keeps its acknowledgements. */
  lemma AcksStayKept(h: History, h': History, actor: NodeId, i: NodeId, n: Node, n': Node)
    requires TermsExtend(h, h', actor) && AcksKept(h, i, n)
    requires n'.log == n.log && Recovered(n.disk).term <= Recovered(n'.disk).term
    requires forall t: Term, k: nat :: AckedEntry(h', i, t, k) ==> AckedEntry(h, i, t, k)
    ensures AcksKept(h', i, n')
  {
    forall t: Term, k: nat | AckedEntry(h', i, t, k) ensures AckKept(h', i, n', t, k) {
      assert AckedEntry(h, i, t, k) && AckKept(h, i, n, t, k);
      assert Agree(h.terms[t].log, h'.terms[t].log, k + 1);
      if !Agree(h.terms[t].log, n.log, k + 1) {
        SupersededExtends(h, h', actor, t, k, Recovered(n.disk).term, Recovered(n'.disk).term);
      }
    }
  }

  /** Entries acknowledged by a bystander are the ones it had acknowledged before. */
  lemma BystanderAcks(servers: set<NodeId>, h: History, h': History, actor: NodeId, i: NodeId)
    requires ExtendedBy(h, h', actor) && AcksOk(servers, h) && i != actor
    ensures forall t: Term, k: nat :: AckedEntry(h', i, t, k) ==> AckedEntry(h, i, t, k)
  {
    forall t: Term, k: nat | AckedEntry(h', i, t, k) ensures AckedEntry(h, i, t, k) {
      assert (i, t) in h.acks;
      assert Agree(h.terms[t].log, h'.terms[t].log, |h.terms[t].log|);
    }
  }

  lemma LogOkExtends(h: History, h': History, actor: NodeId, n: Node)
    requires TermsExtend(h, h', actor) && LogOk(h, n)
    ensures LogOk(h', n)
  {
    GoodLogExtends(h, h', actor, n.log);
  }

  lemma BystanderKeeps(servers: set<NodeId>, h: History, h': History, actor: NodeId, i: NodeId, n: Node)
    requires ExtendedBy(h, h', actor) && AcksOk(servers, h) && i != actor
    requires NodeInv(servers, h, i, n)
    ensures NodeInv(servers, h', i, n)
  {
    LogOkExtends(h, h', actor, n);
    BystanderAcks(servers, h, h', actor, i);
    AcksStayKept(h, h', actor, i, n, n);
    KnownCommittedExtends(h, h', actor, n.log, n.commitIndex, n.term, n.term);
    assert CandidateOk(servers, h', i, n);
    BystanderLeader(servers, h, h', actor, i, n);
  }

  lemma BystanderLeader(servers: set<NodeId>, h: History, h': History, actor: NodeId, i: NodeId, n: Node)
    requires TermsExtend(h, h', actor) && AcksExtend(h, h', actor) && i != actor
    requires LeaderOk(servers, h, i, n)
    ensures LeaderOk(servers, h', i, n)
  {
  }

  lemma AppendOkExtends(h: History, h': History, actor: NodeId, a: AppendArgs)
    requires TermsExtend(h, h', actor) && h.commits <= h'.commits && AppendOk(h, a)
    ensures AppendOk(h', a)
  {
    var l, l' := h.terms[a.term].log, h'.terms[a.term].log;
    assert Agree(l, l', |l|);
    assert l'[a.prevIndex + 1..a.prevIndex + 1 + |a.entries|] == l[a.prevIndex + 1..a.prevIndex + 1 + |a.entries|];
    KnownCommittedExtends(h, h', actor, l, a.leaderCommit, a.term, a.term);
    SameLogKnown(h', l, l', a.leaderCommit, a.term);
  }

  lemma SameLogKnown(h: History, a: Log, b: Log, k: nat, t: Term)
    requires KnownCommitted(h, a, k, t) && Agree(a, b, k + 1)
    ensures KnownCommitted(h, b, k, t)
  {
    if k != 0 {
      var c :| c in h.commits && c.term <= t && c.term in h.terms
               && k <= c.index && Agree(a, h.terms[c.term].log, k + 1);
      assert Agree(b, h.terms[c.term].log, k + 1);
    }
  }

  lemma MessageKeeps(servers: set<NodeId>, h: History, h': History, actor: NodeId, m: Message)
    requires ExtendedBy(h, h', actor) && MessageOk(servers, h, m)
    ensures MessageOk(servers, h', m)
  {
    match m
    case VoteRequest(a) =>
    case VoteAnswer(_, _, _, _) =>
    case AppendRequest(_, a) => AppendOkExtends(h, h', actor, a);
    case AppendAnswer(_, a, _) => AppendOkExtends(h, h', actor, a);
  }

  /** What an event on node `i` has to deliver. */
  ghost predicate StepOk(servers: set<NodeId>, h: History, i: NodeId, f: Effect) {
    && HistoryInv(servers, f.h)
    && ExtendedBy(h, f.h, i)
    && NodeInv(servers, f.h, i, f.node)
    && (forall m <- f.sent :: MessageOk(servers, f.h, m))
  }

  lemma OthersKeep(s: Cluster, i: NodeId, f: Effect)
    requires Inv(s) && StepOk(s.servers, s.h, i, f)
    ensures forall j <- s.servers :: j != i ==> NodeInv(s.servers, f.h, j, s.nodes[j])
    ensures forall m <- s.net :: MessageOk(s.servers, f.h, m)
  {
    forall j <- s.servers | j != i ensures NodeInv(s.servers, f.h, j, s.nodes[j]) {
      BystanderKeeps(s.servers, s.h, f.h, i, j, s.nodes[j]);
    }
    forall m <- s.net ensures MessageOk(s.servers, f.h, m) {
      MessageKeeps(s.servers, s.h, f.h, i, m);
    }
  }

  lemma StepKeepsInv(s: Cluster, i: NodeId, f: Effect)
    requires Inv(s) && i in s.servers && StepOk(s.servers, s.h, i, f)
    ensures Inv(Install(s, i, f))
  {
    OthersKeep(s, i, f);
    var s' := Install(s, i, f);
    assert s'.nodes.Keys == s.servers;
    forall j <- s'.servers ensures NodeInv(s'.servers, s'.h, j, s'.nodes[j]) {
      if j == i {
        assert s'.nodes[j] == f.node;
      } else {
        assert s'.nodes[j] == s.nodes[j];
      }
    }
  }
}
