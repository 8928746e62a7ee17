/** What each request and each answer does to the node that takes it in, over every run. */
module RaftRequests {
  import opened Options
  import opened RaftTypes
  import opened RaftHandlers
  import opened RaftCluster
  import opened RaftInvariant
  import opened RaftReplicationSteps
  import opened RaftSafety
  import opened RaftHistory

  function Max(a: nat, b: nat): nat {
    if a < b then b else a
  }

  // ---------- votes ----------

  /** A log that ends in a later term, or in the same term and is not shorter. */
  predicate AsUpToDate(a: Log, b: Log) {
    LastTerm(a) > LastTerm(b) || (LastTerm(a) == LastTerm(b) && |a| >= |b|)
  }

  /** The voter has not voted for anyone else in that term, in this incarnation or an earlier one. */
  ghost predicate MayVote(h: History, i: NodeId, a: VoteArgs) {
    (i, a.term) in h.ballots ==> h.ballots[(i, a.term)] == a.candidate
  }

  /** A vote is granted exactly when the request is not of an old term, the voter has voted for nobody else in its term,
      and the log the candidate stood with is as up to date as the voter's. */
  lemma VoteGrantedIff(states: seq<Cluster>, events: seq<Event>, k: nat)
    requires IsRun(states, events) && k < |events| && events[k].DeliverVoteRequest?
    ensures var i, a, h := events[k].i, events[k].m.args, states[k].h;
            var n, n' := states[k].nodes[i], states[k + 1].nodes[i];
            && (a.candidate, a.term) in h.bids
            && var granted := a.term >= n.term && MayVote(h, i, a) && AsUpToDate(h.bids[(a.candidate, a.term)], n.log);
               && VoteAnswer(i, a.candidate, a.term, VoteReply(n'.term, granted)) in states[k + 1].net
               && n'.term == Max(n.term, a.term)
               && n'.role == (if a.term > n.term then Follower else n.role)
               && (granted ==> n'.vote == Some(a.candidate))
               && (!granted ==> n'.vote == if a.term > n.term then None else n.vote)
               && n'.log == n.log && n'.commitIndex == n.commitIndex
  {
    var i, a, h := events[k].i, events[k].m.args, states[k].h;
    var n := states[k].nodes[i];
    ReachableNode(states, events, k, i);
    ReachableMessage(states, events, k, events[k].m);
    if a.term >= n.term {
      VoteIsFree(h, i, n, a);
    }
    assert UpToDate(n.log, a) <==> AsUpToDate(h.bids[(a.candidate, a.term)], n.log);
  }

  /** The vote in memory tells whether the node may vote in the request's term. */
  lemma VoteIsFree(h: History, i: NodeId, n: Node, a: VoteArgs)
    requires DurableOk(n) && PromisesKept(h, i, n) && a.term >= n.term
    ensures MayVote(h, i, a) <==> a.term > n.term || n.vote == None || n.vote == Some(a.candidate)
  {
  }

  // ---------- appends ----------

  predicate HasEntry(log: Log, prev: nat, entries: seq<Entry>, x: nat)
    requires x < |entries|
  {
    prev + 1 + x < |log| && log[prev + 1 + x].term == entries[x].term
  }

  /** The log already has these entries, from the `i`-th on, by their terms. */
  predicate HasAll(log: Log, prev: nat, entries: seq<Entry>, i: nat) {
    forall x :: i <= x < |entries| ==> HasEntry(log, prev, entries, x)
  }

  lemma {:induction false} FirstNewIsAll(log: Log, prev: nat, entries: seq<Entry>, i: nat)
    requires prev < |log| && i <= |entries|
    ensures FirstNew(log, prev, entries, i) == |entries| <==> HasAll(log, prev, entries, i)
    decreases |entries| - i
  {
    if i < |entries| {
      assert HasAll(log, prev, entries, i) <==> HasEntry(log, prev, entries, i) && HasAll(log, prev, entries, i + 1);
      if HasEntry(log, prev, entries, i) {
        FirstNewIsAll(log, prev, entries, i + 1);
      }
    }
  }

  predicate Accepts(n: Node, a: AppendArgs) {
    a.term >= n.term && a.prevIndex < |n.log| && n.log[a.prevIndex].term == a.prevTerm
  }

  /** Where the node stands after the request, whatever it answers. */
  ghost predicate Stands(n: Node, a: AppendArgs, n': Node) {
    && n'.term == Max(n.term, a.term)
    && n'.role == (if a.term >= n.term then Follower else n.role)
    && n'.vote == (if a.term > n.term then None else n.vote)
  }

  /** The log after the request: left alone if it had all the entries or the request is refused, and otherwise
      cut at the last of them. */
  ghost predicate LogAfter(n: Node, a: AppendArgs, log: Log) {
    if !Accepts(n, a) || HasAll(n.log, a.prevIndex, a.entries, 0) then log == n.log
    else |log| == a.prevIndex + 1 + |a.entries|
  }

  lemma AppendOnNode(n: Node, a: AppendArgs)
    ensures AppendEntries(n, a).1.success == Accepts(n, a) && AppendEntries(n, a).1.term == AppendEntries(n, a).0.term
    ensures Stands(n, a, AppendEntries(n, a).0) && LogAfter(n, a, AppendEntries(n, a).0.log)
    ensures Accepts(n, a) ==> AppendEntries(n, a).0.log == Merge(n.log, a.prevIndex, a.entries)
    ensures !Accepts(n, a) ==> AppendEntries(n, a).0.commitIndex == n.commitIndex
    ensures Accepts(n, a) && a.leaderCommit <= a.prevIndex + |a.entries| ==>
              AppendEntries(n, a).0.commitIndex == Max(n.commitIndex, a.leaderCommit)
  {
    if Accepts(n, a) {
      FirstNewIsAll(n.log, a.prevIndex, a.entries, 0);
    }
  }

  /** The log has the request's entries after `prev`, and what was there up to `prev`. */
  ghost predicate Carries(log: Log, merged: Log, prev: nat, entries: seq<Entry>) {
    && Agree(log, merged, prev + 1) && prev + 1 + |entries| <= |merged|
    && merged[prev + 1..prev + 1 + |entries|] == entries
  }

  lemma MergeCarries(terms: map<Term, Election>, log: Log, leader: Log, prev: nat, entries: seq<Entry>)
    requires GoodLog(terms, log) && GoodLog(terms, leader) && Anchored(log, leader, prev, entries)
    ensures Carries(log, Merge(log, prev, entries), prev, entries)
  {
    var merged, end := Merge(log, prev, entries), prev + 1 + |entries|;
    MergeFacts(terms, log, leader, prev, entries);
    assert Agree(merged, leader, end);
    assert merged[prev + 1..end] == leader[prev + 1..end];
  }

  lemma AcceptedCarries(servers: set<NodeId>, h: History, n: Node, a: AppendArgs)
    requires HistoryInv(servers, h) && GoodLog(h.terms, n.log) && AppendOk(h, a) && Accepts(n, a)
    ensures Carries(n.log, Merge(n.log, a.prevIndex, a.entries), a.prevIndex, a.entries)
  {
    assert ElectionOk(servers, h, a.term);
    LogMatching(h.terms, n.log, h.terms[a.term].log, a.prevIndex);
    MergeCarries(h.terms, n.log, h.terms[a.term].log, a.prevIndex, a.entries);
  }

  /** A request is accepted exactly when it is not of an old term and the log has its previous entry. The log then has
      the request's entries; it is left alone if it had them all, and otherwise ends with them. The commit index is then
      the higher of the node's and the leader's. */
  lemma AppendAcceptedIff(states: seq<Cluster>, events: seq<Event>, k: nat)
    requires IsRun(states, events) && k < |events| && events[k].DeliverAppend?
    ensures var i, a := Actor(events[k]), events[k].m.append;
            var n, n' := states[k].nodes[i], states[k + 1].nodes[i];
            && (exists reply :: AppendAnswer(i, a, reply) in states[k + 1].net
                                && reply.success == Accepts(n, a) && reply.term == n'.term)
            && Stands(n, a, n') && LogAfter(n, a, n'.log)
            && (Accepts(n, a) ==> Carries(n.log, n'.log, a.prevIndex, a.entries))
            && n'.commitIndex == (if Accepts(n, a) then Max(n.commitIndex, a.leaderCommit) else n.commitIndex)
  {
    var i, a := Actor(events[k]), events[k].m.append;
    var n := states[k].nodes[i];
    ReachableNode(states, events, k, i);
    ReachableMessage(states, events, k, events[k].m);
    AppendOnNode(n, a);
    assert AppendAnswer(i, a, AppendEntries(n, a).1) in states[k + 1].net;
    if Accepts(n, a) {
      AcceptedCarries(states[k].servers, states[k].h, n, a);
    }
  }

  // ---------- answers ----------

  /** An answer to a vote request matters only to a candidate of the term it was asked in: a higher term deposes it, and a
      refusal changes nothing. */
  lemma VoteAnswerTakenIn(states: seq<Cluster>, events: seq<Event>, k: nat)
    requires IsRun(states, events) && k < |events| && events[k].DeliverVoteAnswer?
    ensures var i, m := Actor(events[k]), events[k].m;
            var n, n' := states[k].nodes[i], states[k + 1].nodes[i];
            && (n.role != Candidate || n.term != m.asked ==> n' == n)
            && (n.role == Candidate && n.term == m.asked && m.reply.term > n.term ==>
                  n'.term == m.reply.term && n'.role == Follower && n'.vote == None && n'.log == n.log)
            && (n.role == Candidate && n.term == m.asked && m.reply.term <= n.term && !m.reply.granted ==> n' == n)
  {
  }

  /** An answer to an append request matters only to the leader of the request's term: a higher term deposes it, and a
      rejection moves its next probe of that peer to the index named, and nothing else. */
  lemma AppendAnswerTakenIn(states: seq<Cluster>, events: seq<Event>, k: nat)
    requires IsRun(states, events) && k < |events| && events[k].DeliverAppendAnswer?
    ensures var i, m := Actor(events[k]), events[k].m;
            var n, n' := states[k].nodes[i], states[k + 1].nodes[i];
            && (n.role != Leader || n.term != m.append.term ==> n' == n)
            && (n.role == Leader && n.term == m.append.term && m.answer.term > n.term ==>
                  n'.term == m.answer.term && n'.role == Follower && n'.vote == None && n'.log == n.log)
            && (n.role == Leader && n.term == m.append.term && m.answer.term <= n.term && !m.answer.success ==>
                  n' == n.(nextIndex := n.nextIndex[m.from := m.answer.conflictIndex]))
  {
    RejectionNames(states, events, k);
  }

  lemma RejectionNames(states: seq<Cluster>, events: seq<Event>, k: nat)
    requires IsRun(states, events) && k < |events| && events[k].DeliverAppendAnswer?
    ensures var m := events[k].m; !m.answer.success && m.answer.term <= m.append.term ==> m.answer.conflictIndex > 0
  {
    if !events[k].m.answer.success && events[k].m.answer.term <= events[k].m.append.term {
      RejectionNamesIndex(states, events, k, events[k].m);
    }
  }

  // ---------- sending ----------

  /** The request is the leader's log from the peer's next index on, with the entry before it, and the leader's term
      and commit index. */
  ghost predicate Snapshot(i: NodeId, n: Node, peer: NodeId, a: AppendArgs) {
    && a.term == n.term && a.leader == i && a.leaderCommit == n.commitIndex
    && a.prevIndex + 1 == Get(n.nextIndex, peer) <= |n.log|
    && a.prevTerm == n.log[a.prevIndex].term
    && n.log[..a.prevIndex + 1] + a.entries == n.log
  }

  /** A leader sends one such request, as it stands at that moment; nobody else sends anything. */
  lemma SendIsSnapshot(states: seq<Cluster>, events: seq<Event>, k: nat)
    requires IsRun(states, events) && k < |events| && events[k].SendAppend? && events[k].i in states[k].nodes
    ensures states[k + 1].nodes == states[k].nodes
    ensures var i, peer := events[k].i, events[k].peer;
            if states[k].nodes[i].role == Leader then
              exists a :: Snapshot(i, states[k].nodes[i], peer, a)
                          && states[k + 1].net == states[k].net + {AppendRequest(peer, a)}
            else states[k + 1].net == states[k].net
  {
    var i, peer := events[k].i, events[k].peer;
    var n := states[k].nodes[i];
    assert states[k].nodes[i := n] == states[k].nodes;
    if n.role == Leader {
      ReachableNode(states, events, k, i);
      NoOutOfRangeSlice(states, events, k, i, peer);
      var a := AppendFor(i, n, peer).value;
      assert n.log[..a.prevIndex + 1] + a.entries == n.log;
      assert Snapshot(i, n, peer, a);
    }
  }

  /** The first probe of a new leader is at its last index, with nothing to append, for every peer. */
  lemma FirstProbe(states: seq<Cluster>, events: seq<Event>, k: nat, i: NodeId, peer: NodeId)
    requires IsRun(states, events) && k < |events| && i in states[k].nodes && i in states[k + 1].nodes
    requires states[k].nodes[i].role != Leader && states[k + 1].nodes[i].role == Leader
    requires peer in Peers(states[k].servers, i)
    ensures var n := states[k + 1].nodes[i];
            && AppendFor(i, n, peer).Some?
            && AppendFor(i, n, peer).value.prevIndex == LastIndex(n.log) && AppendFor(i, n, peer).value.entries == []
            && Get(n.matchIndex, peer) == 0
  {
    var s, e := states[k], events[k];
    assert Actor(e) == i;
    NewLeaderIndexes(s, e, peer);
    var n := states[k + 1].nodes[i];
    assert n.log[|n.log|..] == [];
  }

  lemma NewLeaderIndexes(s: Cluster, e: Event, peer: NodeId)
    requires Enabled(s, e) && s.nodes[Actor(e)].role != Leader && EffectOf(s, e).node.role == Leader
    requires peer in Peers(s.servers, Actor(e))
    ensures var n := EffectOf(s, e).node;
            peer in n.nextIndex && n.nextIndex[peer] == |n.log| && peer in n.matchIndex && n.matchIndex[peer] == 0
  {
  }
}
