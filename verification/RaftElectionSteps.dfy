/** The steps of an election, and a crash, keep the invariant. */
module RaftElectionSteps {
  import opened Options
  import opened RaftTypes
  import opened RaftHandlers
  import opened RaftCluster
  import opened RaftInvariant
  import opened RaftHistory
  import opened RaftFrames

  lemma DurableTermLags(n: Node)
    requires DurableOk(n)
    ensures Recovered(n.disk).term <= n.term
  {
  }

  // ---------- startElection ----------

  lemma TimeoutKeeps(servers: set<NodeId>, h: History, i: NodeId, n: Node)
    requires i in servers && HistoryInv(servers, h) && NodeInv(servers, h, i, n)
    ensures StepOk(servers, h, i, OnTimeout(i, n, h))
  {
    var t := n.term + 1;
    var n' := StartElection(i, n);
    var h' := RecordBid(h, i, t, n.log);
    assert Offers(h, i, t, n.log) by {
      forall u: Term, k: nat | AckedEntry(h, i, u, k) && u < t
        ensures Agree(h.terms[u].log, n.log, k + 1) || Superseded(h.terms, u, k, t - 1)
      {
        assert AckKept(h, i, n, u, k);
        if !Agree(h.terms[u].log, n.log, k + 1) {
          assert TermsExtend(h, h, i);
          SupersededExtends(h, h, i, u, k, Recovered(n.disk).term, t - 1);
        }
      }
    }
    BidKeepsHistory(servers, h, i, t, n.log);
    AcksStayKept(h, h', i, i, n, n');
    assert t in h.terms ==> h.terms[t].leader != i by {
      if t in h.terms {
        assert ElectionOk(servers, h, t);
      }
    }
    KnownCommittedExtends(h, h', i, n.log, n.commitIndex, n.term, t);
    assert PromisesKept(h', i, n');
  }

  // ---------- RequestVote ----------

  /** The up-to-date check: a log at least as up to date as one holding an acknowledged entry holds it too,
      unless a leader elected in between lacked it. */
  lemma UpToDateOffers(servers: set<NodeId>, h: History, log: Log, bid: Log, t: Term, u: Term, k: nat)
    requires ElectionsOk(servers, h)
    requires GoodLog(h.terms, log) && GoodLog(h.terms, bid) && Below(bid, t)
    requires u in h.terms && k < |h.terms[u].log| && h.terms[u].log[k].term == u
    requires Agree(h.terms[u].log, log, k + 1)
    requires LastTerm(bid) > LastTerm(log) || (LastTerm(bid) == LastTerm(log) && |bid| >= |log|)
    ensures Agree(h.terms[u].log, bid, k + 1) || Superseded(h.terms, u, k, t - 1)
  {
    var w := LastTerm(bid);
    assert ElectionOk(servers, h, u);
    assert 0 < k && u <= LastTerm(log) <= w;
    assert 0 < LastIndex(bid) by {
      assert bid[0] == SENTINEL;
    }
    assert EntryBacked(h.terms, bid, LastIndex(bid));
    if w == LastTerm(log) {
      assert EntryBacked(h.terms, log, LastIndex(log));
    } else {
      assert ElectionOk(servers, h, w);
      assert |h.terms[w].start| < |bid|;
      assert u < w <= t - 1;
    }
  }

  lemma GrantOffers(servers: set<NodeId>, h: History, i: NodeId, n: Node, a: VoteArgs)
    requires HistoryInv(servers, h) && NodeInv(servers, h, i, n)
    requires BallotPaperOk(h, a) && n.term <= a.term && UpToDate(n.log, a) && a.term !in h.terms
    ensures Offers(h, i, a.term, h.bids[(a.candidate, a.term)])
  {
    var bid := h.bids[(a.candidate, a.term)];
    forall u: Term, k: nat | AckedEntry(h, i, u, k) && u < a.term
      ensures Agree(h.terms[u].log, bid, k + 1) || Superseded(h.terms, u, k, a.term - 1)
    {
      assert AckKept(h, i, n, u, k);
      if Agree(h.terms[u].log, n.log, k + 1) {
        UpToDateOffers(servers, h, n.log, bid, a.term, u, k);
      } else {
        DurableTermLags(n);
        var w: Term :| u < w <= Recovered(n.disk).term && w in h.terms
                       && !Agree(h.terms[u].log, h.terms[w].start, k + 1);
        assert w != a.term;
      }
    }
  }

  lemma StepDownKeeps(servers: set<NodeId>, h: History, i: NodeId, n: Node, t: Term, persist: bool)
    requires HistoryInv(servers, h) && NodeInv(servers, h, i, n) && n.term < t
    ensures NodeInv(servers, h, i, PersistIf(persist, StepDown(n, t)))
  {
    var n' := PersistIf(persist, StepDown(n, t));
    assert TermsExtend(h, h, i);
    AcksStayKept(h, h, i, i, n, n');
    KnownCommittedExtends(h, h, i, n.log, n.commitIndex, n.term, t);
    assert PromisesKept(h, i, n');
  }

  /** The vote is granted: term and candidate as requested, no other vote cast in the term. */
  ghost predicate Grants(h: History, i: NodeId, n: Node, a: VoteArgs) {
    && BallotPaperOk(h, a) && n.term == a.term && a.candidate != i
    && (n.vote == None || n.vote == Some(a.candidate)) && UpToDate(n.log, a)
  }

  lemma GrantKeepsHistory(servers: set<NodeId>, h: History, i: NodeId, n: Node, a: VoteArgs)
    requires HistoryInv(servers, h) && NodeInv(servers, h, i, n) && Grants(h, i, n, a)
    ensures HistoryInv(servers, RecordVote(h, i, a.term, a.candidate))
    ensures ExtendedBy(h, RecordVote(h, i, a.term, a.candidate), i)
  {
    if a.term !in h.terms {
      GrantOffers(servers, h, i, n, a);
    }
    VoteKeepsHistory(servers, h, i, a.term, a.candidate);
  }

  lemma GrantKeepsNode(servers: set<NodeId>, h: History, i: NodeId, n: Node, a: VoteArgs)
    requires HistoryInv(servers, h) && NodeInv(servers, h, i, n) && Grants(h, i, n, a)
    requires ExtendedBy(h, RecordVote(h, i, a.term, a.candidate), i)
    ensures NodeInv(servers, RecordVote(h, i, a.term, a.candidate), i, Persist(n.(vote := Some(a.candidate))))
  {
    var h' := RecordVote(h, i, a.term, a.candidate);
    var n' := Persist(n.(vote := Some(a.candidate)));
    OfficeHasVote(servers, h, i, n);
    assert n.role == Follower;
    AcksStayKept(h, h', i, i, n, n');
    KnownCommittedExtends(h, h', i, n.log, n.commitIndex, n.term, n.term);
    assert PromisesKept(h', i, n');
  }

  /** A candidate or leader has voted for itself in its term. */
  lemma OfficeHasVote(servers: set<NodeId>, h: History, i: NodeId, n: Node)
    requires HistoryInv(servers, h) && NodeInv(servers, h, i, n)
    ensures n.role == Candidate || n.role == Leader ==> n.vote == Some(i)
  {
    if n.role == Leader {
      assert ElectionOk(servers, h, n.term);
    }
  }

  lemma GrantEffect(h: History, i: NodeId, n: Node, a: VoteArgs)
    requires Grants(h, i, n, a)
    ensures OnVoteRequest(i, n, h, a) == Effect(
              Persist(n.(vote := Some(a.candidate))),
              {VoteAnswer(i, a.candidate, a.term, VoteReply(n.term, true))}, RecordVote(h, i, a.term, a.candidate))
  {
  }

  lemma GrantKeeps(servers: set<NodeId>, h: History, i: NodeId, n: Node, a: VoteArgs)
    requires i in servers && HistoryInv(servers, h) && NodeInv(servers, h, i, n) && Grants(h, i, n, a)
    ensures StepOk(servers, h, i, OnVoteRequest(i, n, h, a))
  {
    GrantKeepsHistory(servers, h, i, n, a);
    GrantKeepsNode(servers, h, i, n, a);
    GrantEffect(h, i, n, a);
  }

  lemma VoteRequestKeeps(servers: set<NodeId>, h: History, i: NodeId, n: Node, a: VoteArgs)
    requires i in servers && HistoryInv(servers, h) && NodeInv(servers, h, i, n)
    requires BallotPaperOk(h, a) && a.candidate != i
    ensures StepOk(servers, h, i, OnVoteRequest(i, n, h, a))
  {
    var m := if a.term > n.term then StepDown(n, a.term) else n;
    if a.term > n.term {
      StepDownKeeps(servers, h, i, n, a.term, false);
    }
    if Grants(h, i, m, a) {
      GrantKeeps(servers, h, i, m, a);
      assert OnVoteRequest(i, n, h, a) == OnVoteRequest(i, m, h, a);
    } else {
      if a.term > n.term {
        StepDownKeeps(servers, h, i, n, a.term, true);
      }
      RefusalKeeps(servers, h, i, n, a);
    }
  }

  lemma RefusalKeeps(servers: set<NodeId>, h: History, i: NodeId, n: Node, a: VoteArgs)
    requires i in servers && HistoryInv(servers, h)
    requires NodeInv(servers, h, i, if a.term > n.term then Persist(StepDown(n, a.term)) else n)
    requires !RequestVote(n, a).1.granted
    ensures StepOk(servers, h, i, OnVoteRequest(i, n, h, a))
  {
    assert ExtendedBy(h, h, i);
  }

  // ---------- the vote reply ----------

  lemma MajorityIsQuorum(servers: set<NodeId>, i: NodeId, q: set<NodeId>)
    requires i in servers && q <= servers && |q| >= Majority(Peers(servers, i))
    ensures IsQuorum(servers, q)
  {
    assert servers == Peers(servers, i) + {i};
  }

  lemma WinKeeps(servers: set<NodeId>, h: History, i: NodeId, n: Node)
    requires i in servers && HistoryInv(servers, h) && NodeInv(servers, h, i, n)
    requires n.role == Candidate && IsQuorum(servers, n.votes)
    ensures HistoryInv(servers, RecordWin(h, i, n.term, n.votes, n.log))
    ensures ExtendedBy(h, RecordWin(h, i, n.term, n.votes, n.log), i)
    ensures NodeInv(servers, RecordWin(h, i, n.term, n.votes, n.log), i, BecomeLeader(Peers(servers, i), n))
  {
    var h' := RecordWin(h, i, n.term, n.votes, n.log);
    var n' := BecomeLeader(Peers(servers, i), n);
    WinnerIsFirst(servers, h, i, n.term, n.votes);
    WinKeepsHistory(servers, h, i, n.term, n.votes, n.log);
    LogOkExtends(h, h', i, n');
    WinExtends(servers, h, i, n.term, n.votes, n.log);
    forall t: Term, k: nat | AckedEntry(h', i, t, k) ensures AckedEntry(h, i, t, k) {
      if t == n.term {
        assert false;
      }
    }
    AcksStayKept(h, h', i, i, n, n');
    KnownCommittedExtends(h, h', i, n.log, n.commitIndex, n.term, n.term);
  }

  lemma VoteAnswerKeeps(servers: set<NodeId>, h: History, i: NodeId, n: Node,
                        from: NodeId, asked: Term, r: VoteReply)
    requires i in servers && HistoryInv(servers, h) && NodeInv(servers, h, i, n)
    requires MessageOk(servers, h, VoteAnswer(from, i, asked, r))
    ensures StepOk(servers, h, i, OnVoteAnswer(servers, i, n, h, from, asked, r))
  {
    assert ExtendedBy(h, h, i);
    if n.role == Candidate && n.term == asked {
      if r.term > n.term {
        StepDownKeeps(servers, h, i, n, r.term, true);
      } else if r.granted {
        var counted := n.(votes := n.votes + {from});
        AcksStayKept(h, h, i, i, n, counted);
        assert NodeInv(servers, h, i, counted);
        if |counted.votes| >= Majority(Peers(servers, i)) {
          MajorityIsQuorum(servers, i, counted.votes);
          WinKeeps(servers, h, i, counted);
        }
      }
    }
  }

  // ---------- crash and restart ----------

  lemma CrashKeeps(servers: set<NodeId>, h: History, i: NodeId, n: Node)
    requires HistoryInv(servers, h) && NodeInv(servers, h, i, n)
    ensures StepOk(servers, h, i, Effect(Restart(n.disk), {}, h))
  {
    var n' := Restart(n.disk);
    assert ExtendedBy(h, h, i);
    assert n'.log == n.log;
    AcksStayKept(h, h, i, i, n, n');
    assert PromisesKept(h, i, n');
  }
}
