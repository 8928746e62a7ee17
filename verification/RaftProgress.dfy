/** What the operations of a node achieve, over every run: where safety alone would allow doing less. */
module RaftProgress {
  import opened Options
  import opened RaftTypes
  import opened RaftHandlers
  import opened RaftCluster
  import opened RaftSafety

  // ---------- delivery to the state machine ----------

  /** Within an incarnation lastApplied moves by one at each delivery and at nothing else. */
  lemma AppliedCounts(states: seq<Cluster>, events: seq<Event>, k: nat, i: NodeId)
    requires IsRun(states, events) && k < |events| && i in states[k].nodes
    ensures i in states[k + 1].nodes
    ensures states[k + 1].nodes[i].lastApplied ==
            if events[k] == CrashRestart(i) then 0
            else states[k].nodes[i].lastApplied + if events[k] == ApplyOne(i) then 1 else 0
  {
    if Actor(events[k]) == i {
      AppliedByActor(states[k], events[k]);
    }
  }

  lemma AppliedByActor(s: Cluster, e: Event)
    requires Enabled(s, e)
    ensures EffectOf(s, e).node.lastApplied ==
            if e.CrashRestart? then 0 else s.nodes[Actor(e)].lastApplied + if e.ApplyOne? then 1 else 0
  {
  }

  /** How many entries node `i` has delivered from state `j` to state `k`. */
  function Deliveries(events: seq<Event>, i: NodeId, j: nat, k: nat): nat
    requires j <= k <= |events|
    decreases k
  {
    if j == k then 0 else Deliveries(events, i, j, k - 1) + if events[k - 1] == ApplyOne(i) then 1 else 0
  }

  ghost predicate NoRestart(events: seq<Event>, i: NodeId, j: nat, k: nat) {
    j <= k <= |events| && forall l :: j <= l < k ==> events[l] != CrashRestart(i)
  }

  lemma {:induction false} DeliveriesCount(states: seq<Cluster>, events: seq<Event>, j: nat, k: nat, i: NodeId)
    requires IsRun(states, events) && NoRestart(events, i, j, k) && i in states[j].nodes
    ensures i in states[k].nodes
    ensures states[k].nodes[i].lastApplied == states[j].nodes[i].lastApplied + Deliveries(events, i, j, k)
    decreases k
  {
    if j < k {
      DeliveriesCount(states, events, j, k - 1, i);
      AppliedCounts(states, events, k - 1, i);
    }
  }

  /** The deliveries of one incarnation are at 1, 2, 3 and so on, each once: the delivery that has `n` before it is at
      index `n` + 1. State `j` is the start of the run or the restart of the node. */
  lemma DeliveriesInOrder(states: seq<Cluster>, events: seq<Event>, j: nat, k: nat, i: NodeId)
    requires IsRun(states, events) && NoRestart(events, i, j, k) && k < |events| && events[k] == ApplyOne(i)
    requires i in states[j].nodes && (j == 0 || events[j - 1] == CrashRestart(i))
    ensures DeliveredAt(states[k], events[k]) == Deliveries(events, i, j, k) + 1
  {
    DeliveriesCount(states, events, j, k, i);
    if j > 0 {
      assert Enabled(states[j - 1], events[j - 1]);
      AppliedCounts(states, events, j - 1, i);
    } else {
      assert states[0].nodes[i] == Restart(None);
    }
  }

  /** Everything committed can be delivered: from any reachable state a node delivers, one after the other, all entries
      of its log up to its commit index. */
  lemma {:induction false} CommittedIsDelivered(states: seq<Cluster>, events: seq<Event>, i: NodeId, n: nat)
    returns (states': seq<Cluster>, events': seq<Event>)
    requires IsRun(states, events) && i in states[|events|].nodes
    requires states[|events|].nodes[i].lastApplied + n == states[|events|].nodes[i].commitIndex
    ensures IsRun(states', events') && |events'| == |events| + n && states <= states' && events <= events'
    ensures i in states'[|events'|].nodes
    ensures states'[|events'|].nodes[i] == states[|events|].nodes[i].(lastApplied := states[|events|].nodes[i].commitIndex)
    decreases n
  {
    states', events' := states, events;
    if n > 0 {
      states', events' := Extend(states, events, ApplyOne(i));
      states', events' := CommittedIsDelivered(states', events', i, n - 1);
    }
  }

  // ---------- majorities ----------

  /** The majority a node counts to is a quorum of the servers, no more and no less. */
  lemma MajorityIffQuorum(servers: set<NodeId>, i: NodeId, q: set<NodeId>)
    requires i in servers && q <= servers
    ensures |q| >= Majority(Peers(servers, i)) <==> IsQuorum(servers, q)
  {
    assert |Peers(servers, i)| == |servers| - 1;
  }

  /** A node counts this answer to its own election. */
  predicate Counts(n: Node, m: Message) {
    m.VoteAnswer? && n.role == Candidate && n.term == m.asked && m.reply.term <= n.term && m.reply.granted
  }

  /** A node is elected by the event exactly when the event is an answer it counts, and the voters counted so far,
      itself included, then make a quorum. */
  lemma ElectedAtQuorum(states: seq<Cluster>, events: seq<Event>, k: nat, i: NodeId)
    requires IsRun(states, events) && k < |events| && i in states[k].nodes && states[k].nodes[i].role != Leader
    ensures i in states[k + 1].nodes
    ensures var n, e := states[k].nodes[i], events[k];
            states[k + 1].nodes[i].role == Leader <==>
            e.DeliverVoteAnswer? && Actor(e) == i && Counts(n, e.m) && IsQuorum(states[k].servers, n.votes + {e.m.from})
  {
    var s, n, e := states[k], states[k].nodes[i], events[k];
    ReachableNode(states, events, k, i);
    if Actor(e) == i && e.DeliverVoteAnswer? && Counts(n, e.m) {
      ReachableMessage(states, events, k, e.m);
      MajorityIffQuorum(s.servers, i, n.votes + {e.m.from});
    }
    if Actor(e) == i {
      OnlyVotesElect(s, e);
    }
  }

  lemma OnlyVotesElect(s: Cluster, e: Event)
    requires Enabled(s, e) && s.nodes[Actor(e)].role != Leader
    ensures EffectOf(s, e).node.role == Leader ==> e.DeliverVoteAnswer? && Counts(s.nodes[Actor(e)], e.m)
  {
  }

  /** The voters a candidate has counted are itself and those whose granting answers it has counted since it stood. */
  lemma VotersAreCounted(states: seq<Cluster>, events: seq<Event>, k: nat, i: NodeId)
    requires IsRun(states, events) && k < |events| && i in states[k].nodes
    requires i in states[k + 1].nodes && states[k + 1].nodes[i].role == Candidate
    ensures var n, e := states[k].nodes[i], events[k];
            && (e == Timeout(i) ==> states[k + 1].nodes[i].votes == {i} && states[k + 1].nodes[i].term == n.term + 1)
            && (e != Timeout(i) ==>
                  && n.role == Candidate && states[k + 1].nodes[i].term == n.term
                  && states[k + 1].nodes[i].votes ==
                     n.votes + if e.DeliverVoteAnswer? && Actor(e) == i && Counts(n, e.m) then {e.m.from} else {})
  {
    if Actor(events[k]) == i {
      VotersOfActor(states[k], events[k]);
    }
  }

  lemma VotersOfActor(s: Cluster, e: Event)
    requires Enabled(s, e) && EffectOf(s, e).node.role == Candidate
    ensures var n, n' := s.nodes[Actor(e)], EffectOf(s, e).node;
            && (e.Timeout? ==> n'.votes == {Actor(e)} && n'.term == n.term + 1)
            && (!e.Timeout? ==>
                  && n.role == Candidate && n'.term == n.term
                  && n'.votes == n.votes + if e.DeliverVoteAnswer? && Counts(n, e.m) then {e.m.from} else {})
  {
    var n := s.nodes[Actor(e)];
    assert n.votes + {} == n.votes;
  }

  // ---------- commits ----------

  /** A leader takes this answer in as an acceptance of its own request. */
  predicate Accepts(n: Node, m: Message) {
    m.AppendAnswer? && n.role == Leader && n.term == m.append.term && m.answer.term <= n.term && m.answer.success
  }

  /** The servers that, as far as leader `i` knows, hold its log up to `x`: itself and the peers that match. */
  function Holders(servers: set<NodeId>, i: NodeId, n: Node, x: nat): set<NodeId> {
    {i} + set p | p in Peers(servers, i) && Get(n.matchIndex, p) >= x
  }

  /** The entry is the leader's own and a quorum holds it. */
  predicate OnQuorum(servers: set<NodeId>, i: NodeId, n: Node, x: nat) {
    x < |n.log| && n.log[x].term == n.term && IsQuorum(servers, Holders(servers, i, n, x))
  }

  lemma CommittableIffQuorum(servers: set<NodeId>, i: NodeId, n: Node, x: nat)
    requires i in servers && x < |n.log|
    ensures Committable(Peers(servers, i), n, x) <==> OnQuorum(servers, i, n, x)
  {
    var matching := Matching(Peers(servers, i), n, x);
    assert Holders(servers, i, n, x) == matching + {i};
    MajorityIffQuorum(servers, i, Holders(servers, i, n, x));
  }

  lemma {:induction false} CommitPointIsHighest(servers: set<NodeId>, i: NodeId, n: Node, k: nat)
    requires i in servers && k < |n.log|
    ensures var c := CommitPoint(Peers(servers, i), n, k);
            && (c == n.commitIndex || (n.commitIndex < c <= k && OnQuorum(servers, i, n, c)))
            && forall x :: c < x <= k ==> !OnQuorum(servers, i, n, x)
  {
    if n.commitIndex < k {
      CommittableIffQuorum(servers, i, n, k);
      if !Committable(Peers(servers, i), n, k) {
        CommitPointIsHighest(servers, i, n, k - 1);
      }
    }
  }

  /** After an acceptance the leader knows how far the peer matches, and its commit index is the highest index of its own
      term that a quorum holds, if that is higher than it was. */
  lemma CommitsAtQuorum(states: seq<Cluster>, events: seq<Event>, k: nat)
    requires IsRun(states, events) && k < |events| && events[k].DeliverAppendAnswer?
    requires Accepts(states[k].nodes[Actor(events[k])], events[k].m)
    ensures var i, m, servers := Actor(events[k]), events[k].m, states[k].servers;
            var n, n' := states[k].nodes[i], states[k + 1].nodes[i];
            && n'.log == n.log && n'.term == n.term && n'.role == Leader
            && n'.matchIndex == n.matchIndex[m.from := m.append.prevIndex + |m.append.entries|]
            && n'.nextIndex == n.nextIndex[m.from := m.append.prevIndex + |m.append.entries| + 1]
            && (n'.commitIndex == n.commitIndex ||
                (n'.commitIndex > n.commitIndex && OnQuorum(servers, i, n', n'.commitIndex)))
            && forall x :: n'.commitIndex < x < |n'.log| ==> !OnQuorum(servers, i, n', x)
  {
    var i, m, servers := Actor(events[k]), events[k].m, states[k].servers;
    var n, n' := states[k].nodes[i], states[k + 1].nodes[i];
    var far := m.append.prevIndex + |m.append.entries|;
    var known := n.(matchIndex := n.matchIndex[m.from := far], nextIndex := n.nextIndex[m.from := far + 1]);
    ReachableNode(states, events, k, i);
    assert n' == AdvanceCommit(Peers(servers, i), known);
    CommitPointIsHighest(servers, i, known, LastIndex(known.log));
    SameQuorums(servers, i, known, n');
  }

  lemma SameQuorums(servers: set<NodeId>, i: NodeId, n: Node, n': Node)
    requires n'.log == n.log && n'.term == n.term && n'.matchIndex == n.matchIndex
    ensures forall x: nat :: OnQuorum(servers, i, n', x) <==> OnQuorum(servers, i, n, x)
  {
    forall x: nat ensures OnQuorum(servers, i, n', x) <==> OnQuorum(servers, i, n, x) {
      assert Holders(servers, i, n', x) == Holders(servers, i, n, x);
    }
  }
}
