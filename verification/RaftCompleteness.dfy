/** Leader Completeness and its consequences, from the history's invariant alone. */
module RaftCompleteness {
  import opened RaftTypes
  import opened RaftCluster
  import opened RaftInvariant
  import opened RaftHistory

  /** A committed entry, and all before it, are in the starting log of every leader of a later term. */
  lemma {:induction false} LaterLeaderStartsWith(servers: set<NodeId>, h: History, c: Commit, u: Term)
    requires HistoryInv(servers, h) && c in h.commits
    requires c.term < u && u in h.terms
    ensures c.term in h.terms && Agree(h.terms[c.term].log, h.terms[u].start, c.index + 1)
    decreases u
  {
    assert CommitOk(servers, h, c) && ElectionOk(servers, h, u);
    var v := QuorumsMeet(servers, c.quorum, h.terms[u].voters);
    assert AckedEntry(h, v, c.term, c.index) && VoteCovers(h, v, c.term, c.index, u);
    if !Agree(h.terms[c.term].log, h.terms[u].start, c.index + 1) {
      assert Superseded(h.terms, c.term, c.index, u - 1);
      var w: Term :| c.term < w <= u - 1 && w in h.terms
                     && !Agree(h.terms[c.term].log, h.terms[w].start, c.index + 1);
      LaterLeaderStartsWith(servers, h, c, w);
      assert false;
    }
  }

  /** The same for the leader's log at any time: leaders only append. */
  lemma LaterLeaderHolds(servers: set<NodeId>, h: History, c: Commit, u: Term)
    requires HistoryInv(servers, h) && c in h.commits
    requires c.term <= u && u in h.terms
    ensures c.term in h.terms && Agree(h.terms[c.term].log, h.terms[u].log, c.index + 1)
  {
    assert CommitOk(servers, h, c);
    CommitFits(servers, h, c);
    if c.term < u {
      LaterLeaderStartsWith(servers, h, c, u);
      assert ElectionOk(servers, h, u);
    }
  }

  /** Two commits, whoever made them and whenever, agree on every index both cover. */
  lemma CommitsAgree(servers: set<NodeId>, h: History, c: Commit, d: Commit)
    requires HistoryInv(servers, h) && c in h.commits && d in h.commits
    requires c.term <= d.term
    ensures c.term in h.terms && d.term in h.terms
    ensures Agree(h.terms[c.term].log, h.terms[d.term].log, c.index + 1)
  {
    assert CommitOk(servers, h, d);
    LaterLeaderHolds(servers, h, c, d.term);
  }

  /** What a node of term at most `t` knows to be committed is in the log of the leader of `t`. */
  lemma LeaderHoldsKnown(servers: set<NodeId>, h: History, log: Log, k: nat, t: Term)
    requires HistoryInv(servers, h) && t in h.terms
    requires KnownCommitted(h, log, k, t) && log[0] == SENTINEL
    ensures Agree(log, h.terms[t].log, k + 1)
  {
    if k == 0 {
      assert ElectionOk(servers, h, t);
    } else {
      var c :| c in h.commits && c.term <= t && c.term in h.terms
               && k <= c.index && Agree(log, h.terms[c.term].log, k + 1);
      LaterLeaderHolds(servers, h, c, t);
    }
  }
}
