/** The inductive invariant of the cluster, in three layers: the history on its own, each node against the
    history, each message against the history. */
module RaftInvariant {
  import opened Options
  import opened RaftTypes
  import opened RaftHandlers
  import opened RaftCluster

  // ---------- logs ----------

  ghost predicate Ascending(log: Log) {
    forall j, k :: 0 <= j < k < |log| ==> log[j].term <= log[k].term
  }

  ghost predicate Below(log: Log, t: Term) {
    forall k :: 0 <= k < |log| ==> log[k].term < t
  }

  /** Entry `k` was created by the leader of its term, and the log agrees with that leader's log up to it. */
  ghost predicate EntryBacked(terms: map<Term, Election>, log: Log, k: nat)
    requires k < |log|
  {
    && 0 < log[k].term
    && log[k].term in terms
    && Agree(log, terms[log[k].term].log, k + 1)
  }

  ghost predicate Backed(terms: map<Term, Election>, log: Log) {
    && log[0] == SENTINEL
    && forall k {:trigger EntryBacked(terms, log, k)} :: 0 < k < |log| ==> EntryBacked(terms, log, k)
  }

  ghost predicate GoodLog(terms: map<Term, Election>, log: Log) {
    Backed(terms, log) && Ascending(log)
  }

  // ---------- the history ----------

  ghost predicate ElectionOk(servers: set<NodeId>, h: History, t: Term)
    requires t in h.terms
  {
    var e := h.terms[t];
    && 0 < t
    && GoodLog(h.terms, e.log)
    && Agree(e.start, e.log, |e.start|)
    && Below(e.start, t)
    && (forall k :: |e.start| <= k < |e.log| ==> e.log[k].term == t)
    && (e.leader, t) in h.bids && h.bids[(e.leader, t)] == e.start
    && IsQuorum(servers, e.voters)
    && e.leader in e.voters
    && (forall v <- e.voters :: (v, t) in h.ballots && h.ballots[(v, t)] == e.leader)
  }

  ghost predicate ElectionsOk(servers: set<NodeId>, h: History) {
    forall t: Term {:trigger ElectionOk(servers, h, t)} :: t in h.terms ==> ElectionOk(servers, h, t)
  }

  ghost predicate BidsOk(h: History) {
    forall i: NodeId, t: Term :: (i, t) in h.bids ==>
      && 0 < t
      && GoodLog(h.terms, h.bids[(i, t)])
      && Below(h.bids[(i, t)], t)
      && (i, t) in h.ballots
  }

  ghost predicate BallotsOk(h: History) {
    forall v: NodeId, t: Term :: (v, t) in h.ballots ==> (h.ballots[(v, t)], t) in h.bids
  }

  ghost predicate AcksOk(servers: set<NodeId>, h: History) {
    forall v: NodeId, t: Term :: (v, t) in h.acks ==>
      v in servers && t in h.terms && h.acks[(v, t)] < |h.terms[t].log|
  }

  /** Node `v` has reported holding entry `k`, an entry of term `t`, of the log of the leader of `t`. */
  ghost predicate AckedEntry(h: History, v: NodeId, t: Term, k: nat) {
    && (v, t) in h.acks && t in h.terms
    && k <= h.acks[(v, t)] && k < |h.terms[t].log|
    && h.terms[t].log[k].term == t
  }

  /** Some leader elected after `t`, in a term up to `bound`, started without the first `k`+1 entries of `t`. */
  ghost predicate Superseded(terms: map<Term, Election>, t: Term, k: nat, bound: Term)
    requires t in terms
  {
    exists u: Term :: t < u <= bound && u in terms && !Agree(terms[t].log, terms[u].start, k + 1)
  }

  /** A vote of `v` in a later term went to a candidate that has the acknowledged entries, unless a leader in
      between already lacked them. A vote that came after the election was decided is exempt. */
  ghost predicate VoteCovers(h: History, v: NodeId, t: Term, k: nat, t': Term) {
    (AckedEntry(h, v, t, k) && (v, t') in h.ballots && t < t' && (t' in h.terms ==> v in h.terms[t'].voters)) ==>
      && (h.ballots[(v, t')], t') in h.bids
      && (Agree(h.terms[t].log, h.bids[(h.ballots[(v, t')], t')], k + 1) || Superseded(h.terms, t, k, t' - 1))
  }

  ghost predicate VotesCover(h: History) {
    forall v: NodeId, t: Term, k: nat, t': Term :: VoteCovers(h, v, t, k, t')
  }

  ghost predicate CommitOk(servers: set<NodeId>, h: History, c: Commit) {
    && c.term in h.terms
    && IsQuorum(servers, c.quorum)
    && (forall v <- c.quorum :: AckedEntry(h, v, c.term, c.index))
  }

  ghost predicate CommitsOk(servers: set<NodeId>, h: History) {
    forall c {:trigger CommitOk(servers, h, c)} :: c in h.commits ==> CommitOk(servers, h, c)
  }

  /** The first `k`+1 entries of `log` lie within a commit made in a term up to `t`. */
  ghost predicate KnownCommitted(h: History, log: Log, k: nat, t: Term) {
    && k < |log|
    && (k == 0 || exists c :: c in h.commits && c.term <= t && c.term in h.terms
                              && k <= c.index && Agree(log, h.terms[c.term].log, k + 1))
  }

  ghost predicate AppliedCommitted(h: History, a: Applied) {
    exists c :: c in h.commits && c.term in h.terms && a.index <= c.index < |h.terms[c.term].log|
                && h.terms[c.term].log[a.index].command == a.command
  }

  ghost predicate AppliedOk(h: History) {
    forall a {:trigger AppliedCommitted(h, a)} :: a in h.applied ==> AppliedCommitted(h, a)
  }

  ghost predicate HistoryInv(servers: set<NodeId>, h: History) {
    && ElectionsOk(servers, h)
    && BidsOk(h)
    && BallotsOk(h)
    && AcksOk(servers, h)
    && VotesCover(h)
    && CommitsOk(servers, h)
    && AppliedOk(h)
  }

  // ---------- a node against the history ----------

  /** The durable log is the log in memory, and the durable term and vote are too, except for a follower that
      learned a higher term from a rejected append: there the durable term lags and no vote is held. */
  ghost predicate DurableOk(n: Node) {
    var p := Recovered(n.disk);
    && p.log == n.log
    && ((p.term == n.term && p.vote == n.vote) || (p.term < n.term && n.role == Follower && n.vote == None))
  }

  ghost predicate LogOk(h: History, n: Node) {
    && GoodLog(h.terms, n.log)
    && Below(n.log, Recovered(n.disk).term + 1)
  }

  /** No vote ever cast is forgotten: the durable term has reached it and, in that term, the durable vote is it. */
  ghost predicate PromisesKept(h: History, i: NodeId, n: Node) {
    var p := Recovered(n.disk);
    && (p.vote.Some? ==> (i, p.term) in h.ballots)
    && forall t: Term :: (i, t) in h.ballots ==>
         t <= p.term && (t == p.term ==> p.vote == Some(h.ballots[(i, t)]))
  }

  /** An acknowledged entry of its leader's own term is still held, unless a later leader lacked it. */
  ghost predicate AckKept(h: History, i: NodeId, n: Node, t: Term, k: nat) {
    AckedEntry(h, i, t, k) ==>
      && t <= Recovered(n.disk).term
      && (Agree(h.terms[t].log, n.log, k + 1) || Superseded(h.terms, t, k, Recovered(n.disk).term))
  }

  ghost predicate AcksKept(h: History, i: NodeId, n: Node) {
    forall t: Term, k: nat :: AckKept(h, i, n, t, k)
  }

  ghost predicate CandidateOk(servers: set<NodeId>, h: History, i: NodeId, n: Node) {
    n.role == Candidate ==>
      && (i, n.term) in h.bids && h.bids[(i, n.term)] == n.log
      && (n.term in h.terms ==> h.terms[n.term].leader != i)
      && n.votes <= servers && i in n.votes
      && forall v <- n.votes :: (v, n.term) in h.ballots && h.ballots[(v, n.term)] == i
  }

  ghost predicate LeaderOk(servers: set<NodeId>, h: History, i: NodeId, n: Node) {
    n.role == Leader ==>
      && n.term in h.terms
      && h.terms[n.term].leader == i
      && h.terms[n.term].log == n.log
      && (i, n.term) in h.acks && h.acks[(i, n.term)] == LastIndex(n.log)
      && (forall p <- Peers(servers, i) ::
            && p in n.nextIndex && 1 <= n.nextIndex[p] <= |n.log|
            && p in n.matchIndex
            && (0 < n.matchIndex[p] ==> (p, n.term) in h.acks && n.matchIndex[p] <= h.acks[(p, n.term)]))
  }

  ghost predicate CommitIndexOk(h: History, n: Node) {
    n.lastApplied <= n.commitIndex && KnownCommitted(h, n.log, n.commitIndex, n.term)
  }

  ghost predicate NodeInv(servers: set<NodeId>, h: History, i: NodeId, n: Node) {
    && DurableOk(n)
    && LogOk(h, n)
    && PromisesKept(h, i, n)
    && AcksKept(h, i, n)
    && CandidateOk(servers, h, i, n)
    && LeaderOk(servers, h, i, n)
    && CommitIndexOk(h, n)
  }

  // ---------- a message against the history ----------

  ghost predicate BallotPaperOk(h: History, a: VoteArgs) {
    && (a.candidate, a.term) in h.bids
    && a.lastLogIndex == LastIndex(h.bids[(a.candidate, a.term)])
    && a.lastLogTerm == LastTerm(h.bids[(a.candidate, a.term)])
  }

  /** The request carries a slice of its leader's log, reaching at least as far as the leader's commit index. */
  ghost predicate AppendOk(h: History, a: AppendArgs) {
    && a.term in h.terms
    && a.leader == h.terms[a.term].leader
    && a.prevIndex + 1 + |a.entries| <= |h.terms[a.term].log|
    && h.terms[a.term].log[a.prevIndex].term == a.prevTerm
    && h.terms[a.term].log[a.prevIndex + 1..a.prevIndex + 1 + |a.entries|] == a.entries
    && a.leaderCommit <= a.prevIndex + |a.entries|
    && KnownCommitted(h, h.terms[a.term].log, a.leaderCommit, a.term)
  }

  /** A success vouches for the whole request; a rejection that does not carry a higher term names an index
      between 1 and the one probed. */
  ghost predicate AppendAnswerOk(servers: set<NodeId>, h: History, from: NodeId, a: AppendArgs, r: AppendReply) {
    && AppendOk(h, a)
    && a.term <= r.term
    && (r.success ==> (from, a.term) in h.acks && a.prevIndex + |a.entries| <= h.acks[(from, a.term)])
    && (!r.success && r.term == a.term ==> 1 <= r.conflictIndex <= a.prevIndex)
  }

  ghost predicate MessageOk(servers: set<NodeId>, h: History, m: Message) {
    match m
    case VoteRequest(a) => BallotPaperOk(h, a)
    case VoteAnswer(from, to, asked, r) =>
      from in servers && (r.granted ==> (from, asked) in h.ballots && h.ballots[(from, asked)] == to)
    case AppendRequest(to, a) => to in servers && to != a.leader && AppendOk(h, a)
    case AppendAnswer(from, a, r) => from in servers && from != a.leader && AppendAnswerOk(servers, h, from, a, r)
  }

  ghost predicate Inv(s: Cluster) {
    && s.nodes.Keys == s.servers
    && HistoryInv(s.servers, s.h)
    && (forall i <- s.servers :: NodeInv(s.servers, s.h, i, s.nodes[i]))
    && (forall m <- s.net :: MessageOk(s.servers, s.h, m))
  }

  // ---------- how a step of node i may extend the history ----------

  ghost predicate TermsExtend(h: History, h': History, i: NodeId) {
    && (forall t: Term :: t in h.terms ==>
          && t in h'.terms
          && h'.terms[t].(log := h.terms[t].log) == h.terms[t]
          && Agree(h.terms[t].log, h'.terms[t].log, |h.terms[t].log|)
          && (h'.terms[t].log == h.terms[t].log || h.terms[t].leader == i))
    && (forall t: Term :: t in h'.terms && t !in h.terms ==> h'.terms[t].leader == i)
  }

  ghost predicate BallotsExtend(h: History, h': History, i: NodeId) {
    && (forall v: NodeId, t: Term :: (v, t) in h.ballots ==> (v, t) in h'.ballots && h'.ballots[(v, t)] == h.ballots[(v, t)])
    && (forall v: NodeId, t: Term :: (v, t) in h'.ballots && v != i ==> (v, t) in h.ballots)
    && (forall v: NodeId, t: Term :: (v, t) in h.bids ==> (v, t) in h'.bids && h'.bids[(v, t)] == h.bids[(v, t)])
  }

  ghost predicate AcksExtend(h: History, h': History, i: NodeId) {
    && (forall v: NodeId, t: Term :: (v, t) in h.acks ==> (v, t) in h'.acks && h.acks[(v, t)] <= h'.acks[(v, t)])
    && (forall v: NodeId, t: Term :: (v, t) in h'.acks && v != i ==> (v, t) in h.acks && h'.acks[(v, t)] == h.acks[(v, t)])
  }

  ghost predicate ExtendedBy(h: History, h': History, i: NodeId) {
    && TermsExtend(h, h', i)
    && BallotsExtend(h, h', i)
    && AcksExtend(h, h', i)
    && h.commits <= h'.commits
    && h.applied <= h'.applied
  }
}
