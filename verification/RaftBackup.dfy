/** Fast backup: how soon a stable leader that probes one follower, round after round, finds the point where
    their logs agree. */
module RaftBackup {
  import opened Options
  import opened RaftTypes
  import opened RaftHandlers
  import opened RaftCluster
  import opened RaftInvariant
  import opened RaftHistory
  import opened RaftReplicationSteps
  import opened RaftSafety

  /** A leader that may probe `peer`, and a follower that accepts its term. */
  ghost predicate Probing(leader: Node, peer: NodeId, follower: Node) {
    && leader.role == Leader
    && peer in leader.nextIndex && 1 <= leader.nextIndex[peer] <= |leader.log|
    && leader.commitIndex < |leader.log|
    && leader.log[0] == SENTINEL && follower.log[0] == SENTINEL
    && follower.term <= leader.term
  }

  /** The follower has the leader's log, term and commit index, and the leader knows about the log. */
  ghost predicate CaughtUp(leader: Node, peer: NodeId, leader': Node, follower': Node) {
    && Agree(leader.log, follower'.log, |leader.log|)
    && follower'.term == leader.term && follower'.role == Follower
    && follower'.commitIndex >= leader.commitIndex
    && leader'.role == Leader && leader'.term == leader.term && leader'.log == leader.log
    && Get(leader'.matchIndex, peer) == LastIndex(leader.log) && Get(leader'.nextIndex, peer) == |leader.log|
  }

  datatype Round = Round(leader: Node, follower: Node, accepted: bool)

  /** One exchange: the leader sends, the follower answers, the leader takes the answer in. */
  function OneRound(peers: set<NodeId>, me: NodeId, leader: Node, peer: NodeId, follower: Node): Round
    requires AppendFor(me, leader, peer).Some?
  {
    var a := AppendFor(me, leader, peer).value;
    var (follower', r) := AppendEntries(follower, a);
    Round(HandleAppendReply(peers, leader, peer, a, r), follower', r.success)
  }

  datatype Outcome = Outcome(rejections: nat, leader: Node, follower: Node)

  lemma RejectedRound(peers: set<NodeId>, me: NodeId, leader: Node, peer: NodeId, follower: Node)
    requires Probing(leader, peer, follower)
    ensures AppendFor(me, leader, peer).Some?
    ensures var r := OneRound(peers, me, leader, peer, follower);
            var prev := leader.nextIndex[peer] - 1;
            !r.accepted ==>
              && 0 < prev
              && r.follower.log == follower.log
              && Probing(r.leader, peer, r.follower) && r.leader.log == leader.log
              && r.leader.term == leader.term && r.leader.commitIndex == leader.commitIndex
              && r.leader.nextIndex[peer] ==
                 (if prev > LastIndex(follower.log) then |follower.log|
                  else RunStart(follower.log, prev, follower.log[prev].term))
              && 1 <= r.leader.nextIndex[peer] <= prev
  {
    var prev := leader.nextIndex[peer] - 1;
    if 0 < prev <= LastIndex(follower.log) {
      RunStartBounds(follower.log, prev, follower.log[prev].term);
    }
  }

  /** Probe until the follower accepts. */
  ghost function Sync(peers: set<NodeId>, me: NodeId, leader: Node, peer: NodeId, follower: Node): Outcome
    requires Probing(leader, peer, follower)
    decreases leader.nextIndex[peer]
  {
    RejectedRound(peers, me, leader, peer, follower);
    var r := OneRound(peers, me, leader, peer, follower);
    if r.accepted then Outcome(0, r.leader, r.follower)
    else
      var o := Sync(peers, me, r.leader, peer, r.follower);
      o.(rejections := o.rejections + 1)
  }

  /** The terms of the entries 1..k. */
  function TermsUpTo(log: seq<Entry>, k: nat): set<Term>
    requires k < |log|
  {
    set j | 0 < j <= k :: log[j].term
  }

  lemma {:induction false} RunStartIsRun(log: seq<Entry>, i: nat, t: Term)
    requires 0 < i < |log| && log[i].term == t
    ensures var c := RunStart(log, i, t);
            && 1 <= c <= i
            && (forall j :: c <= j <= i ==> log[j].term == t)
            && (c == 1 || log[c - 1].term != t)
  {
    if i > 1 && log[i - 1].term == t {
      RunStartIsRun(log, i - 1, t);
    }
  }

  /** Backing up over the run of a term leaves fewer terms to try. */
  lemma BackupDropsTerm(log: Log, prev: nat)
    requires Ascending(log) && 0 < prev < |log|
    ensures var c := RunStart(log, prev, log[prev].term);
            1 <= c <= prev && |TermsUpTo(log, c - 1)| + 1 <= |TermsUpTo(log, prev)|
  {
    var t := log[prev].term;
    var c := RunStart(log, prev, t);
    RunStartIsRun(log, prev, t);
    var few, all := TermsUpTo(log, c - 1), TermsUpTo(log, prev);
    assert t in all;
    assert few <= all - {t} by {
      forall x | x in few ensures x in all && x != t {
        var j :| 0 < j <= c - 1 && log[j].term == x;
        assert log[j].term <= log[c - 1].term <= log[prev].term;
      }
    }
    SubsetSize(few, all - {t});
  }

  /** Once the probe is inside the follower's log, each rejection uses up one of the follower's terms. */
  lemma {:induction false} RejectionsInside(peers: set<NodeId>, me: NodeId, leader: Node, peer: NodeId, follower: Node)
    requires Probing(leader, peer, follower) && Ascending(follower.log)
    requires leader.nextIndex[peer] <= |follower.log|
    ensures Sync(peers, me, leader, peer, follower).rejections <=
            |TermsUpTo(follower.log, leader.nextIndex[peer] - 1)|
    decreases leader.nextIndex[peer]
  {
    RejectedRound(peers, me, leader, peer, follower);
    var r := OneRound(peers, me, leader, peer, follower);
    if !r.accepted {
      BackupDropsTerm(follower.log, leader.nextIndex[peer] - 1);
      RejectionsInside(peers, me, r.leader, peer, r.follower);
    }
  }

  /** At most one rejection because the follower's log is too short, and one per distinct term in it. */
  lemma FewRejections(peers: set<NodeId>, me: NodeId, leader: Node, peer: NodeId, follower: Node)
    requires Probing(leader, peer, follower) && Ascending(follower.log)
    ensures Sync(peers, me, leader, peer, follower).rejections <=
            1 + |TermsUpTo(follower.log, LastIndex(follower.log))|
  {
    RejectedRound(peers, me, leader, peer, follower);
    var last := LastIndex(follower.log);
    if leader.nextIndex[peer] <= |follower.log| {
      RejectionsInside(peers, me, leader, peer, follower);
      assert TermsUpTo(follower.log, leader.nextIndex[peer] - 1) <= TermsUpTo(follower.log, last);
      SubsetSize(TermsUpTo(follower.log, leader.nextIndex[peer] - 1), TermsUpTo(follower.log, last));
    } else {
      var r := OneRound(peers, me, leader, peer, follower);
      if !r.accepted {
        RejectionsInside(peers, me, r.leader, peer, r.follower);
      }
    }
  }

  /** An accepted round leaves the follower with the whole of the leader's log, and the leader knowing it. */
  lemma AcceptedRound(terms: map<Term, Election>, peers: set<NodeId>, me: NodeId, leader: Node, peer: NodeId,
                      follower: Node)
    requires Probing(leader, peer, follower)
    requires GoodLog(terms, leader.log) && GoodLog(terms, follower.log)
    ensures AppendFor(me, leader, peer).Some?
    ensures var r := OneRound(peers, me, leader, peer, follower);
            r.accepted ==> CaughtUp(leader, peer, r.leader, r.follower)
  {
    var a := AppendFor(me, leader, peer).value;
    if AppendEntries(follower, a).1.success {
      AcceptedLog(terms, me, leader, peer, follower);
    }
  }

  lemma AcceptedLog(terms: map<Term, Election>, me: NodeId, leader: Node, peer: NodeId, follower: Node)
    requires Probing(leader, peer, follower) && GoodLog(terms, leader.log) && GoodLog(terms, follower.log)
    requires AppendFor(me, leader, peer).Some? && AppendEntries(follower, AppendFor(me, leader, peer).value).1.success
    ensures Agree(leader.log, AppendEntries(follower, AppendFor(me, leader, peer).value).0.log, |leader.log|)
  {
    var a := AppendFor(me, leader, peer).value;
    assert leader.log[a.prevIndex + 1..a.prevIndex + 1 + |a.entries|] == a.entries;
    LogMatching(terms, follower.log, leader.log, a.prevIndex);
    MergeFacts(terms, follower.log, leader.log, a.prevIndex, a.entries);
  }

  lemma {:induction false} SyncConverges(terms: map<Term, Election>, peers: set<NodeId>, me: NodeId, leader: Node,
                                         peer: NodeId, follower: Node)
    requires Probing(leader, peer, follower)
    requires GoodLog(terms, leader.log) && GoodLog(terms, follower.log)
    ensures var o := Sync(peers, me, leader, peer, follower);
            CaughtUp(leader, peer, o.leader, o.follower)
    decreases leader.nextIndex[peer]
  {
    RejectedRound(peers, me, leader, peer, follower);
    AcceptedRound(terms, peers, me, leader, peer, follower);
    var r := OneRound(peers, me, leader, peer, follower);
    if !r.accepted {
      SyncConverges(terms, peers, me, r.leader, peer, r.follower);
    }
  }

  // ---------- as events of the cluster ----------

  /** An event of the exchange between leader `i` and follower `peer`. */
  predicate Exchange(e: Event, i: NodeId, peer: NodeId) {
    match e
    case SendAppend(j, p) => j == i && p == peer
    case DeliverAppend(m) => m.AppendRequest? && m.append.leader == i && m.to == peer
    case DeliverAppendAnswer(m) => m.AppendAnswer? && m.append.leader == i && m.from == peer
    case _ => false
  }

  lemma SendRound(s: Cluster, i: NodeId, peer: NodeId, a: AppendArgs)
    requires i in s.nodes && peer in Peers(s.servers, i) && s.nodes[i].role == Leader
    requires AppendFor(i, s.nodes[i], peer) == Some(a)
    ensures var s' := Next(s, SendAppend(i, peer));
            s'.servers == s.servers && s'.nodes == s.nodes && AppendRequest(peer, a) in s'.net && a.leader == i
  {
    assert s.nodes[i := s.nodes[i]] == s.nodes;
  }

  lemma AnswerRound(s: Cluster, i: NodeId, peer: NodeId, a: AppendArgs)
    requires i in s.nodes && peer in s.nodes && i != peer && AppendRequest(peer, a) in s.net
    ensures var s', (f, r) := Next(s, DeliverAppend(AppendRequest(peer, a))), AppendEntries(s.nodes[peer], a);
            s'.servers == s.servers && s'.nodes == s.nodes[peer := f] && AppendAnswer(peer, a, r) in s'.net
  {
  }

  lemma FinishRound(s: Cluster, i: NodeId, peer: NodeId, a: AppendArgs, r: AppendReply)
    requires i in s.nodes && a.leader == i && AppendAnswer(peer, a, r) in s.net
    ensures var s' := Next(s, DeliverAppendAnswer(AppendAnswer(peer, a, r)));
            && s'.servers == s.servers
            && s'.nodes == s.nodes[i := HandleAppendReply(Peers(s.servers, i), s.nodes[i], peer, a, r)]
  {
  }

  /** A round is three events of the cluster, which leave every other server alone. */
  lemma RoundIsEvents(states: seq<Cluster>, events: seq<Event>, i: NodeId, peer: NodeId)
    returns (states': seq<Cluster>, events': seq<Event>)
    requires IsRun(states, events)
    requires var s := states[|events|];
             && i in s.nodes && peer in s.nodes && peer in Peers(s.servers, i) && s.nodes[i].role == Leader
             && AppendFor(i, s.nodes[i], peer).Some?
    ensures IsRun(states', events') && |events'| == |events| + 3 && states <= states' && events <= events'
    ensures forall x :: |events| <= x < |events'| ==> Exchange(events'[x], i, peer)
    ensures var s, s' := states[|events|], states'[|events'|];
            var r := OneRound(Peers(s.servers, i), i, s.nodes[i], peer, s.nodes[peer]);
            s'.servers == s.servers && s'.nodes == s.nodes[peer := r.follower][i := r.leader]
  {
    var s := states[|events|];
    var a := AppendFor(i, s.nodes[i], peer).value;
    var r := AppendEntries(s.nodes[peer], a).1;
    SendRound(s, i, peer, a);
    states', events' := Extend(states, events, SendAppend(i, peer));
    AnswerRound(states'[|events'|], i, peer, a);
    states', events' := Extend(states', events', DeliverAppend(AppendRequest(peer, a)));
    FinishRound(states'[|events'|], i, peer, a, r);
    states', events' := Extend(states', events', DeliverAppendAnswer(AppendAnswer(peer, a, r)));
  }

  /** Probing until the follower accepts is a run of such rounds, one more than there are rejections. */
  lemma {:induction false} SyncIsEvents(states: seq<Cluster>, events: seq<Event>, i: NodeId, peer: NodeId)
    returns (states': seq<Cluster>, events': seq<Event>)
    requires IsRun(states, events)
    requires var s := states[|events|];
             && i in s.nodes && peer in s.nodes && peer in Peers(s.servers, i)
             && Probing(s.nodes[i], peer, s.nodes[peer])
    ensures IsRun(states', events') && states <= states' && events <= events'
    ensures forall x :: |events| <= x < |events'| ==> Exchange(events'[x], i, peer)
    ensures var s, s' := states[|events|], states'[|events'|];
            var o := Sync(Peers(s.servers, i), i, s.nodes[i], peer, s.nodes[peer]);
            && |events'| == |events| + 3 * (o.rejections + 1)
            && s'.servers == s.servers && s'.nodes == s.nodes[peer := o.follower][i := o.leader]
    decreases states[|events|].nodes[i].nextIndex[peer]
  {
    var s := states[|events|];
    RejectedRound(Peers(s.servers, i), i, s.nodes[i], peer, s.nodes[peer]);
    var r := OneRound(Peers(s.servers, i), i, s.nodes[i], peer, s.nodes[peer]);
    states', events' := RoundIsEvents(states, events, i, peer);
    if !r.accepted {
      var mid := events';
      states', events' := SyncIsEvents(states', events', i, peer);
      assert forall x :: 0 <= x < |mid| ==> events'[x] == mid[x];
    }
  }

  lemma RunPrefix(states: seq<Cluster>, events: seq<Event>, k: nat)
    requires IsRun(states, events) && k < |states|
    ensures IsRun(states[..k + 1], events[..k])
  {
    forall x | 0 <= x < k ensures Enabled(states[x], events[x]) && states[x + 1] == Next(states[x], events[x]) {
    }
  }

  lemma SyncIsFast(states: seq<Cluster>, events: seq<Event>, k: nat, i: NodeId, peer: NodeId)
    requires IsRun(states, events) && k < |states|
    requires i in states[k].nodes && peer in states[k].nodes && peer != i
    requires states[k].nodes[i].role == Leader && states[k].nodes[peer].term <= states[k].nodes[i].term
    ensures peer in Peers(states[k].servers, i)
    ensures var leader, follower := states[k].nodes[i], states[k].nodes[peer];
            && Probing(leader, peer, follower)
            && var o := Sync(Peers(states[k].servers, i), i, leader, peer, follower);
               && o.rejections <= 1 + |TermsUpTo(follower.log, LastIndex(follower.log))|
               && CaughtUp(leader, peer, o.leader, o.follower)
  {
    var s := states[k];
    ReachableNode(states, events, k, i);
    ReachableNode(states, events, k, peer);
    assert Probing(s.nodes[i], peer, s.nodes[peer]);
    FewRejections(Peers(s.servers, i), i, s.nodes[i], peer, s.nodes[peer]);
    SyncConverges(s.h.terms, Peers(s.servers, i), i, s.nodes[i], peer, s.nodes[peer]);
  }

  /** From any reachable state, the run in which a leader and one follower of no higher term exchange appends, round
      after round, brings the follower to the leader's log, term and commit index, and the leader to know it, after
      at most one rejection because the follower's log is too short plus one per distinct term in it. */
  lemma FastBackup(states: seq<Cluster>, events: seq<Event>, k: nat, i: NodeId, peer: NodeId)
    returns (states': seq<Cluster>, events': seq<Event>)
    requires IsRun(states, events) && k < |states|
    requires i in states[k].nodes && peer in states[k].nodes && peer != i
    requires states[k].nodes[i].role == Leader && states[k].nodes[peer].term <= states[k].nodes[i].term
    ensures IsRun(states', events') && states[..k + 1] <= states' && events[..k] <= events'
    ensures forall x :: k <= x < |events'| ==> Exchange(events'[x], i, peer)
    ensures var leader, follower, last := states[k].nodes[i], states[k].nodes[peer], states'[|events'|];
            && |events'| <= k + 3 * (2 + |TermsUpTo(follower.log, LastIndex(follower.log))|)
            && i in last.nodes && peer in last.nodes
            && CaughtUp(leader, peer, last.nodes[i], last.nodes[peer])
  {
    RunPrefix(states, events, k);
    SyncIsFast(states, events, k, i, peer);
    states', events' := SyncIsEvents(states[..k + 1], events[..k], i, peer);
  }
}
