/** Each way the history grows keeps the history's own invariant. */
module RaftHistory {
  import opened RaftTypes
  import opened RaftCluster
  import opened RaftInvariant

  // ---------- logs and quorums ----------

  /** Log Matching: equal terms at an index mean equal logs up to that index. */
  lemma LogMatching(terms: map<Term, Election>, a: Log, b: Log, k: nat)
    requires GoodLog(terms, a) && GoodLog(terms, b)
    requires k < |a| && k < |b| && a[k].term == b[k].term
    ensures Agree(a, b, k + 1)
  {
    if 0 < k {
      assert EntryBacked(terms, a, k);
      assert EntryBacked(terms, b, k);
    }
  }

  /** Two majorities share a member. */
  lemma QuorumsMeet(servers: set<NodeId>, p: set<NodeId>, q: set<NodeId>) returns (v: NodeId)
    requires IsQuorum(servers, p) && IsQuorum(servers, q)
    ensures v in p && v in q
  {
    if p * q == {} {
      assert |p + q| == |p| + |q|;
      SubsetSize(p + q, servers);
      assert false;
    }
    v :| v in p * q;
  }

  lemma SubsetSize(a: set<NodeId>, b: set<NodeId>)
    requires a <= b
    ensures |a| <= |b|
  {
    assert b == a + (b - a);
  }

  // ---------- what survives any extension ----------

  lemma GoodLogExtends(h: History, h': History, i: NodeId, log: Log)
    requires TermsExtend(h, h', i) && GoodLog(h.terms, log)
    ensures GoodLog(h'.terms, log)
  {
    forall k | 0 < k < |log| ensures EntryBacked(h'.terms, log, k) {
      assert EntryBacked(h.terms, log, k);
    }
  }

  lemma SupersededExtends(h: History, h': History, i: NodeId, t: Term, k: nat, bound: Term, bound': Term)
    requires TermsExtend(h, h', i) && t in h.terms && k < |h.terms[t].log| && bound <= bound'
    requires Superseded(h.terms, t, k, bound)
    ensures Superseded(h'.terms, t, k, bound')
  {
    var u: Term :| t < u <= bound && u in h.terms && !Agree(h.terms[t].log, h.terms[u].start, k + 1);
    assert u in h'.terms && h'.terms[u].start == h.terms[u].start;
    assert Agree(h.terms[t].log, h'.terms[t].log, k + 1);
    assert !Agree(h'.terms[t].log, h'.terms[u].start, k + 1);
  }

  lemma AckedEntryExtends(h: History, h': History, i: NodeId, v: NodeId, t: Term, k: nat)
    requires TermsExtend(h, h', i) && AcksExtend(h, h', i) && AckedEntry(h, v, t, k)
    ensures AckedEntry(h', v, t, k)
  {
  }

  lemma KnownCommittedExtends(h: History, h': History, i: NodeId, log: Log, k: nat, t: Term, t': Term)
    requires TermsExtend(h, h', i) && h.commits <= h'.commits && t <= t'
    requires KnownCommitted(h, log, k, t)
    ensures KnownCommitted(h', log, k, t')
  {
    if k != 0 {
      var c :| c in h.commits && c.term <= t && c.term in h.terms
               && k <= c.index && Agree(log, h.terms[c.term].log, k + 1);
      assert Agree(log, h'.terms[c.term].log, k + 1);
      assert c in h'.commits;
    }
  }

  lemma CommitsExtend(servers: set<NodeId>, h: History, h': History, i: NodeId)
    requires TermsExtend(h, h', i) && AcksExtend(h, h', i) && h'.commits == h.commits
    requires CommitsOk(servers, h)
    ensures CommitsOk(servers, h')
  {
    forall c | c in h'.commits ensures CommitOk(servers, h', c) {
      assert CommitOk(servers, h, c);
      forall v <- c.quorum ensures AckedEntry(h', v, c.term, c.index) {
        AckedEntryExtends(h, h', i, v, c.term, c.index);
      }
    }
  }

  lemma AppliedExtends(h: History, h': History, i: NodeId)
    requires TermsExtend(h, h', i) && h.commits <= h'.commits && h'.applied == h.applied
    requires AppliedOk(h)
    ensures AppliedOk(h')
  {
    forall a | a in h'.applied ensures AppliedCommitted(h', a) {
      assert AppliedCommitted(h, a);
      var c :| c in h.commits && c.term in h.terms && a.index <= c.index < |h.terms[c.term].log|
               && h.terms[c.term].log[a.index].command == a.command;
      assert c in h'.commits && c.term in h'.terms;
    }
  }

  /** Elections are untouched by new votes and bids. */
  lemma ElectionsExtend(servers: set<NodeId>, h: History, h': History, i: NodeId)
    requires BallotsExtend(h, h', i) && h'.terms == h.terms
    requires ElectionsOk(servers, h)
    ensures ElectionsOk(servers, h')
  {
    forall t: Term | t in h'.terms ensures ElectionOk(servers, h', t) {
      assert ElectionOk(servers, h, t);
    }
  }

  /** The coverage owed by votes already cast carries over when no acknowledged entry is new. */
  lemma CoverExtends(h: History, h': History, i: NodeId, v: NodeId, t: Term, k: nat, t': Term)
    requires TermsExtend(h, h', i) && BallotsExtend(h, h', i)
    requires VotesCover(h) && AckedEntry(h, v, t, k) && (v, t') in h.ballots && t < t'
    requires t' in h.terms ==> v in h.terms[t'].voters
    ensures VoteCovers(h', v, t, k, t')
  {
    assert VoteCovers(h, v, t, k, t');
    var c := h.ballots[(v, t')];
    assert h'.ballots[(v, t')] == c && h'.bids[(c, t')] == h.bids[(c, t')];
    assert Agree(h.terms[t].log, h'.terms[t].log, k + 1);
    if !Agree(h.terms[t].log, h.bids[(c, t')], k + 1) {
      SupersededExtends(h, h', i, t, k, t' - 1, t' - 1);
    }
  }

  // ---------- a candidate stands ----------

  /** What a voter's own log must offer before it votes in term `t`: its acknowledged entries. */
  ghost predicate Offers(h: History, v: NodeId, t: Term, log: Log) {
    forall u: Term, k: nat :: AckedEntry(h, v, u, k) && u < t ==>
      Agree(h.terms[u].log, log, k + 1) || Superseded(h.terms, u, k, t - 1)
  }

  lemma NewBallotKeepsCover(h: History, h': History, i: NodeId, t: Term)
    requires VotesCover(h)
    requires BallotsExtend(h, h', i) && h'.acks == h.acks && h'.terms == h.terms
    requires forall v: NodeId, u: Term :: (v, u) in h'.ballots ==> (v, u) in h.ballots || (v, u) == (i, t)
    requires (i, t) in h'.ballots && (h'.ballots[(i, t)], t) in h'.bids
    requires (i, t) !in h.ballots && (t in h.terms ==> i in h.terms[t].voters) ==>
               Offers(h, i, t, h'.bids[(h'.ballots[(i, t)], t)])
    ensures VotesCover(h')
  {
    forall v: NodeId, u: Term, k: nat, t': Term |
      AckedEntry(h', v, u, k) && (v, t') in h'.ballots && u < t' && (t' in h'.terms ==> v in h'.terms[t'].voters)
      ensures VoteCovers(h', v, u, k, t')
    {
      assert AckedEntry(h, v, u, k);
      if (v, t') in h.ballots {
        CoverExtends(h, h', i, v, u, k, t');
      }
    }
  }

  lemma BidKeepsHistory(servers: set<NodeId>, h: History, i: NodeId, t: Term, log: Log)
    requires HistoryInv(servers, h)
    requires 0 < t && (i, t) !in h.ballots
    requires GoodLog(h.terms, log) && Below(log, t)
    requires Offers(h, i, t, log)
    ensures HistoryInv(servers, RecordBid(h, i, t, log))
    ensures ExtendedBy(h, RecordBid(h, i, t, log), i)
  {
    var h' := RecordBid(h, i, t, log);
    assert BallotsExtend(h, h', i);
    ElectionsExtend(servers, h, h', i);
    CommitsExtend(servers, h, h', i);
    AppliedExtends(h, h', i);
    NewBallotKeepsCover(h, h', i, t);
  }

  // ---------- a vote is granted ----------

  lemma VoteExtends(h: History, i: NodeId, t: Term, c: NodeId)
    requires (c, t) in h.bids && ((i, t) in h.ballots ==> h.ballots[(i, t)] == c)
    ensures ExtendedBy(h, RecordVote(h, i, t, c), i)
  {
  }

  lemma VoteKeepsHistory(servers: set<NodeId>, h: History, i: NodeId, t: Term, c: NodeId)
    requires HistoryInv(servers, h)
    requires (c, t) in h.bids
    requires (i, t) in h.ballots ==> h.ballots[(i, t)] == c
    requires (i, t) !in h.ballots && t !in h.terms ==> Offers(h, i, t, h.bids[(c, t)])
    ensures HistoryInv(servers, RecordVote(h, i, t, c))
    ensures ExtendedBy(h, RecordVote(h, i, t, c), i)
  {
    var h' := RecordVote(h, i, t, c);
    VoteExtends(h, i, t, c);
    ElectionsExtend(servers, h, h', i);
    CommitsExtend(servers, h, h', i);
    AppliedExtends(h, h', i);
    VoteKeepsCover(servers, h, i, t, c);
  }

  lemma VoteKeepsCover(servers: set<NodeId>, h: History, i: NodeId, t: Term, c: NodeId)
    requires ElectionsOk(servers, h) && VotesCover(h) && ExtendedBy(h, RecordVote(h, i, t, c), i)
    requires (c, t) in h.bids && ((i, t) in h.ballots ==> h.ballots[(i, t)] == c)
    requires (i, t) !in h.ballots && t !in h.terms ==> Offers(h, i, t, h.bids[(c, t)])
    ensures VotesCover(RecordVote(h, i, t, c))
  {
    assert t in h.terms && (i, t) !in h.ballots ==> i !in h.terms[t].voters by {
      assert t in h.terms ==> ElectionOk(servers, h, t);
    }
    NewBallotKeepsCover(h, RecordVote(h, i, t, c), i, t);
  }

  // ---------- an election is won ----------

  /** Election Safety at the moment of winning: the term has no leader yet. */
  lemma WinnerIsFirst(servers: set<NodeId>, h: History, i: NodeId, t: Term, voters: set<NodeId>)
    requires ElectionsOk(servers, h)
    requires IsQuorum(servers, voters)
    requires forall v <- voters :: (v, t) in h.ballots && h.ballots[(v, t)] == i
    requires t in h.terms ==> h.terms[t].leader != i
    ensures t !in h.terms
  {
    if t in h.terms {
      assert ElectionOk(servers, h, t);
      var v := QuorumsMeet(servers, voters, h.terms[t].voters);
      assert false;
    }
  }

  lemma WinExtends(servers: set<NodeId>, h: History, i: NodeId, t: Term, voters: set<NodeId>, log: Log)
    requires AcksOk(servers, h) && t !in h.terms
    ensures ExtendedBy(h, RecordWin(h, i, t, voters, log), i)
    ensures forall v: NodeId, u: Term, k: nat :: AckedEntry(RecordWin(h, i, t, voters, log), v, u, k) && u != t ==>
              AckedEntry(h, v, u, k)
  {
    var h' := RecordWin(h, i, t, voters, log);
    assert (i, t) !in h.acks;
    assert h'.acks == h.acks[(i, t) := LastIndex(log)];
  }

  lemma WinKeepsElections(servers: set<NodeId>, h: History, i: NodeId, t: Term, voters: set<NodeId>, log: Log)
    requires ElectionsOk(servers, h) && AcksOk(servers, h) && BidsOk(h)
    requires t !in h.terms
    requires (i, t) in h.bids && h.bids[(i, t)] == log
    requires IsQuorum(servers, voters) && i in voters
    requires forall v <- voters :: (v, t) in h.ballots && h.ballots[(v, t)] == i
    ensures ElectionsOk(servers, RecordWin(h, i, t, voters, log))
    ensures BidsOk(RecordWin(h, i, t, voters, log))
  {
    var h' := RecordWin(h, i, t, voters, log);
    WinExtends(servers, h, i, t, voters, log);
    forall u: Term | u in h'.terms ensures ElectionOk(servers, h', u) {
      if u != t {
        assert ElectionOk(servers, h, u);
        GoodLogExtends(h, h', i, h.terms[u].log);
      } else {
        GoodLogExtends(h, h', i, log);
      }
    }
    forall j: NodeId, u: Term | (j, u) in h'.bids ensures GoodLog(h'.terms, h'.bids[(j, u)]) {
      GoodLogExtends(h, h', i, h.bids[(j, u)]);
    }
  }

  lemma WinKeepsHistory(servers: set<NodeId>, h: History, i: NodeId, t: Term, voters: set<NodeId>, log: Log)
    requires HistoryInv(servers, h)
    requires t !in h.terms
    requires (i, t) in h.bids && h.bids[(i, t)] == log
    requires IsQuorum(servers, voters) && i in voters
    requires forall v <- voters :: (v, t) in h.ballots && h.ballots[(v, t)] == i
    ensures HistoryInv(servers, RecordWin(h, i, t, voters, log))
    ensures ExtendedBy(h, RecordWin(h, i, t, voters, log), i)
  {
    var h' := RecordWin(h, i, t, voters, log);
    WinExtends(servers, h, i, t, voters, log);
    WinKeepsElections(servers, h, i, t, voters, log);
    CommitsExtend(servers, h, h', i);
    AppliedExtends(h, h', i);
    WinKeepsCover(servers, h, i, t, voters, log);
  }

  lemma WinKeepsCover(servers: set<NodeId>, h: History, i: NodeId, t: Term, voters: set<NodeId>, log: Log)
    requires AcksOk(servers, h) && VotesCover(h)
    requires t !in h.terms && Below(log, t)
    ensures VotesCover(RecordWin(h, i, t, voters, log))
  {
    var h' := RecordWin(h, i, t, voters, log);
    WinExtends(servers, h, i, t, voters, log);
    forall v: NodeId, u: Term, k: nat, t': Term |
      AckedEntry(h', v, u, k) && (v, t') in h'.ballots && u < t' && (t' in h'.terms ==> v in h'.terms[t'].voters)
      ensures VoteCovers(h', v, u, k, t')
    {
      if u == t {
        assert false;
      } else {
        assert AckedEntry(h, v, u, k);
        CoverExtends(h, h', i, v, u, k, t');
      }
    }
  }

  // ---------- a leader appends a command ----------

  lemma ProposalExtends(servers: set<NodeId>, h: History, i: NodeId, t: Term, e: Entry)
    requires t in h.terms && h.terms[t].leader == i
    requires AcksOk(servers, h)
    ensures ExtendedBy(h, RecordProposal(h, i, t, h.terms[t].log + [e]), i)
  {
  }

  lemma ProposalKeepsElections(servers: set<NodeId>, h: History, i: NodeId, t: Term, e: Entry)
    requires ElectionsOk(servers, h) && AcksOk(servers, h) && BidsOk(h)
    requires t in h.terms && h.terms[t].leader == i && e.term == t
    ensures ElectionsOk(servers, RecordProposal(h, i, t, h.terms[t].log + [e]))
    ensures BidsOk(RecordProposal(h, i, t, h.terms[t].log + [e]))
  {
    var old' := h.terms[t].log;
    var h' := RecordProposal(h, i, t, old' + [e]);
    ProposalExtends(servers, h, i, t, e);
    forall u: Term | u in h'.terms ensures ElectionOk(servers, h', u) {
      assert ElectionOk(servers, h, u);
      GoodLogExtends(h, h', i, h.terms[u].log);
      if u == t {
        GrownLogIsGood(h'.terms, t, old', e);
      }
    }
    forall j: NodeId, u: Term | (j, u) in h'.bids ensures GoodLog(h'.terms, h'.bids[(j, u)]) {
      GoodLogExtends(h, h', i, h.bids[(j, u)]);
    }
  }

  lemma GrownLogIsGood(terms: map<Term, Election>, t: Term, log: Log, e: Entry)
    requires t in terms && terms[t].log == log + [e] && e.term == t && 0 < t
    requires GoodLog(terms, log)
    requires forall k :: 0 <= k < |log| ==> log[k].term <= t
    ensures GoodLog(terms, log + [e])
  {
    var grown: Log := log + [e];
    forall k | 0 < k < |grown| ensures EntryBacked(terms, grown, k) {
      if k < |log| {
        assert EntryBacked(terms, log, k);
      }
    }
  }

  lemma ProposalKeepsHistory(servers: set<NodeId>, h: History, i: NodeId, t: Term, e: Entry)
    requires HistoryInv(servers, h)
    requires i in servers && t in h.terms && h.terms[t].leader == i && e.term == t
    requires (i, t) in h.acks && h.acks[(i, t)] == LastIndex(h.terms[t].log)
    requires forall t': Term :: (i, t') in h.ballots ==> t' <= t
    ensures HistoryInv(servers, RecordProposal(h, i, t, h.terms[t].log + [e]))
    ensures ExtendedBy(h, RecordProposal(h, i, t, h.terms[t].log + [e]), i)
  {
    var h' := RecordProposal(h, i, t, h.terms[t].log + [e]);
    ProposalExtends(servers, h, i, t, e);
    ProposalKeepsElections(servers, h, i, t, e);
    CommitsExtend(servers, h, h', i);
    AppliedExtends(h, h', i);
    NewAckKeepsCover(servers, h, h', i, t);
  }

  // ---------- a follower acknowledges ----------

  /** Acknowledging in term `t` owes no coverage: the node has cast no vote above `t` yet. */
  lemma NewAckKeepsCover(servers: set<NodeId>, h: History, h': History, i: NodeId, t: Term)
    requires AcksOk(servers, h) && VotesCover(h)
    requires ExtendedBy(h, h', i)
    requires h'.ballots == h.ballots && h'.bids == h.bids
    requires h'.terms.Keys == h.terms.Keys
    requires forall v: NodeId, u: Term :: (v, u) in h'.acks && (v, u) != (i, t) ==>
               (v, u) in h.acks && h'.acks[(v, u)] == h.acks[(v, u)]
    requires forall t': Term :: (i, t') in h.ballots ==> t' <= t
    ensures VotesCover(h')
  {
    forall v: NodeId, u: Term, k: nat, t': Term |
      AckedEntry(h', v, u, k) && (v, t') in h'.ballots && u < t' && (t' in h'.terms ==> v in h'.terms[t'].voters)
      ensures VoteCovers(h', v, u, k, t')
    {
      assert (v, u) != (i, t);
      assert k < |h.terms[u].log| && h'.terms[u].log[k] == h.terms[u].log[k];
      assert AckedEntry(h, v, u, k);
      CoverExtends(h, h', i, v, u, k, t');
    }
  }

  lemma AckKeepsHistory(servers: set<NodeId>, h: History, i: NodeId, t: Term, k: nat)
    requires HistoryInv(servers, h)
    requires i in servers && t in h.terms && k < |h.terms[t].log|
    requires forall t': Term :: (i, t') in h.ballots ==> t' <= t
    ensures HistoryInv(servers, RecordAck(h, i, t, k))
    ensures ExtendedBy(h, RecordAck(h, i, t, k), i)
  {
    var h' := RecordAck(h, i, t, k);
    assert ExtendedBy(h, h', i);
    ElectionsExtend(servers, h, h', i);
    CommitsExtend(servers, h, h', i);
    AppliedExtends(h, h', i);
    NewAckKeepsCover(servers, h, h', i, t);
  }

  // ---------- a leader commits; a node applies ----------

  lemma CommitKeepsHistory(servers: set<NodeId>, h: History, i: NodeId, t: Term, k: nat, q: set<NodeId>)
    requires HistoryInv(servers, h)
    requires t in h.terms && IsQuorum(servers, q)
    requires forall v <- q :: AckedEntry(h, v, t, k)
    ensures HistoryInv(servers, RecordCommit(h, t, k, q))
    ensures ExtendedBy(h, RecordCommit(h, t, k, q), i)
  {
    var h' := RecordCommit(h, t, k, q);
    assert ExtendedBy(h, h', i);
    ElectionsExtend(servers, h, h', i);
    AppliedExtends(h, h', i);
    NewCommitOk(servers, h, t, k, q);
    SameVotesCover(h, h');
  }

  lemma NewCommitOk(servers: set<NodeId>, h: History, t: Term, k: nat, q: set<NodeId>)
    requires CommitsOk(servers, h)
    requires t in h.terms && IsQuorum(servers, q)
    requires forall v <- q :: AckedEntry(h, v, t, k)
    ensures CommitsOk(servers, RecordCommit(h, t, k, q))
  {
    var h' := RecordCommit(h, t, k, q);
    forall c | c in h'.commits ensures CommitOk(servers, h', c) {
      if c in h.commits {
        assert CommitOk(servers, h, c);
      }
      forall v <- c.quorum ensures AckedEntry(h', v, c.term, c.index) {
        assert AckedEntry(h, v, c.term, c.index);
      }
    }
  }

  lemma SameVotesCover(h: History, h': History)
    requires VotesCover(h)
    requires h'.acks == h.acks && h'.ballots == h.ballots && h'.bids == h.bids && h'.terms == h.terms
    ensures VotesCover(h')
  {
    forall v: NodeId, t: Term, k: nat, t': Term ensures VoteCovers(h', v, t, k, t') {
      assert VoteCovers(h, v, t, k, t');
    }
  }

  lemma ApplyKeepsHistory(servers: set<NodeId>, h: History, i: NodeId, k: nat, command: Command, log: Log, t: Term)
    requires HistoryInv(servers, h)
    requires KnownCommitted(h, log, k, t) && 0 < k && log[k].command == command
    ensures HistoryInv(servers, RecordApply(h, i, k, command))
    ensures ExtendedBy(h, RecordApply(h, i, k, command), i)
  {
    var h' := RecordApply(h, i, k, command);
    assert ExtendedBy(h, h', i);
    ElectionsExtend(servers, h, h', i);
    CommitsExtend(servers, h, h', i);
    SameVotesCover(h, h');
    NewApplyIsCommitted(servers, h, i, k, command, log, t);
  }

  lemma NewApplyIsCommitted(servers: set<NodeId>, h: History, i: NodeId, k: nat, command: Command, log: Log, t: Term)
    requires CommitsOk(servers, h) && AppliedOk(h)
    requires KnownCommitted(h, log, k, t) && 0 < k && log[k].command == command
    ensures AppliedOk(RecordApply(h, i, k, command))
  {
    var c :| c in h.commits && c.term <= t && c.term in h.terms
             && k <= c.index && Agree(log, h.terms[c.term].log, k + 1);
    assert CommitOk(servers, h, c);
    CommitFits(servers, h, c);
    var h' := RecordApply(h, i, k, command);
    forall a | a in h'.applied ensures AppliedCommitted(h', a) {
      if a in h.applied {
        assert AppliedCommitted(h, a);
      } else {
        assert c in h'.commits;
      }
    }
  }

  /** A commit lies inside its leader's log and ends in an entry of its own term. */
  lemma CommitFits(servers: set<NodeId>, h: History, c: Commit)
    requires CommitOk(servers, h, c)
    ensures c.index < |h.terms[c.term].log| && h.terms[c.term].log[c.index].term == c.term
  {
    var v :| v in c.quorum;
    assert AckedEntry(h, v, c.term, c.index);
  }
}
