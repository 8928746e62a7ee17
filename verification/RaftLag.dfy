/** When a node's durable term is behind its term in memory: one path steps down without saving. */
module RaftLag {
  import opened Options
  import opened RaftTypes
  import opened RaftHandlers
  import opened RaftCluster
  import opened RaftSafety

  /** A restart now would fall back to an older term. */
  predicate Lags(n: Node) {
    Recovered(n.disk).term < n.term
  }

  /** The event saves the acting node's state: the guards under which the source calls persistLocked. */
  predicate Saves(s: Cluster, e: Event)
    requires Enabled(s, e)
  {
    var n := s.nodes[Actor(e)];
    match e
    case Timeout(_) => true
    case DeliverVoteRequest(_, m) => m.args.term > n.term || RequestVote(n, m.args).1.granted
    case DeliverVoteAnswer(m) => n.role == Candidate && n.term == m.asked && m.reply.term > n.term
    case ClientStart(_, _) => n.role == Leader
    case DeliverAppend(m) => m.append.term > n.term || (AppendEntries(n, m.append).1.success && Brings(n, m.append))
    case _ => false
  }

  /** The request brings an entry the log lacks. */
  predicate Brings(n: Node, a: AppendArgs) {
    a.prevIndex < |n.log| && FirstNew(n.log, a.prevIndex, a.entries, 0) < |a.entries|
  }

  /** A leader learns of a higher term from the answer to an append request of its own term. */
  predicate Deposes(s: Cluster, e: Event)
    requires Enabled(s, e)
  {
    var n := s.nodes[Actor(e)];
    e.DeliverAppendAnswer? && n.role == Leader && n.term == e.m.append.term && e.m.answer.term > n.term
  }

  ghost predicate DeposedAt(states: seq<Cluster>, events: seq<Event>, j: nat, i: NodeId) {
    && j < |events| && j < |states| && Enabled(states[j], events[j])
    && Actor(events[j]) == i && Deposes(states[j], events[j])
  }

  /** At step `j` the node saved its state or lost what it had in memory. */
  ghost predicate SettledAt(states: seq<Cluster>, events: seq<Event>, j: nat, i: NodeId) {
    && j < |events| && j < |states| && Enabled(states[j], events[j])
    && Actor(events[j]) == i && (Saves(states[j], events[j]) || events[j].CrashRestart?)
  }

  // ---------- one step ----------

  lemma VoteRequestLags(n: Node, a: VoteArgs)
    requires Recovered(n.disk).term <= n.term
    ensures Lags(RequestVote(n, a).0) <==> Lags(n) && !(a.term > n.term || RequestVote(n, a).1.granted)
  {
  }

  lemma AppendLags(n: Node, a: AppendArgs)
    requires Recovered(n.disk).term <= n.term
    ensures Lags(AppendEntries(n, a).0) <==>
            Lags(n) && !(a.term > n.term || (AppendEntries(n, a).1.success && Brings(n, a)))
  {
  }

  lemma VoteAnswerLags(peers: set<NodeId>, n: Node, from: NodeId, asked: Term, r: VoteReply)
    requires Recovered(n.disk).term <= n.term
    ensures Lags(HandleVoteReply(peers, n, from, asked, r)) <==>
            Lags(n) && !(n.role == Candidate && n.term == asked && r.term > n.term)
  {
  }

  lemma AppendAnswerLags(peers: set<NodeId>, n: Node, from: NodeId, a: AppendArgs, r: AppendReply)
    requires Recovered(n.disk).term <= n.term
    ensures Lags(HandleAppendReply(peers, n, from, a, r)) <==>
            Lags(n) || (n.role == Leader && n.term == a.term && r.term > n.term)
  {
  }

  lemma ActorLags(s: Cluster, e: Event)
    requires Enabled(s, e) && Recovered(s.nodes[Actor(e)].disk).term <= s.nodes[Actor(e)].term
    ensures Lags(EffectOf(s, e).node) <==>
            Deposes(s, e) || (Lags(s.nodes[Actor(e)]) && !Saves(s, e) && !e.CrashRestart?)
  {
    var n, peers := s.nodes[Actor(e)], Peers(s.servers, Actor(e));
    match e
    case DeliverVoteRequest(_, m) => VoteRequestLags(n, m.args);
    case DeliverVoteAnswer(m) => VoteAnswerLags(peers, n, m.from, m.asked, m.reply);
    case DeliverAppend(m) => AppendLags(n, m.append);
    case DeliverAppendAnswer(m) => AppendAnswerLags(peers, n, m.from, m.append, m.answer);
    case _ =>
  }

  lemma LagStep(states: seq<Cluster>, events: seq<Event>, k: nat, i: NodeId)
    requires IsRun(states, events) && k < |events| && i in states[0].nodes
    ensures i in states[k].nodes && i in states[k + 1].nodes
    ensures Lags(states[k + 1].nodes[i]) <==>
            DeposedAt(states, events, k, i) || (Lags(states[k].nodes[i]) && !SettledAt(states, events, k, i))
  {
    NodesStay(states, events, k, i);
    DurableState(states, events, k, Actor(events[k]));
    ActorLags(states[k], events[k]);
  }

  lemma NodesStay(states: seq<Cluster>, events: seq<Event>, k: nat, i: NodeId)
    requires IsRun(states, events) && k < |states| && i in states[0].nodes
    ensures i in states[k].nodes
  {
    RunHasInv(states, events, 0);
    RunHasInv(states, events, k);
  }

  // ---------- over runs ----------

  /** No settling strictly between steps `j` and `k`. */
  ghost predicate UnsettledSince(states: seq<Cluster>, events: seq<Event>, j: nat, k: nat, i: NodeId) {
    forall l: nat :: j < l < k ==> !SettledAt(states, events, l, i)
  }

  /** Something that starts at a cause and lasts until it is settled holds exactly when there is a cause that nothing
      has settled since. */
  lemma {:induction false} LastsSinceCause(holds: seq<bool>, cause: seq<bool>, settled: seq<bool>, k: nat)
    requires |holds| == |cause| + 1 == |settled| + 1 && k < |holds| && !holds[0]
    requires forall l :: 0 <= l < |cause| ==> (holds[l + 1] <==> cause[l] || (holds[l] && !settled[l]))
    ensures holds[k] <==> exists j :: 0 <= j < k && cause[j] && forall l :: j < l < k ==> !settled[l]
  {
    if k > 0 {
      LastsSinceCause(holds, cause, settled, k - 1);
      assert holds[k - 1 + 1] <==> cause[k - 1] || (holds[k - 1] && !settled[k - 1]);
    }
  }

  lemma {:induction false} LagsTable(states: seq<Cluster>, events: seq<Event>, i: NodeId)
    returns (holds: seq<bool>, cause: seq<bool>, settled: seq<bool>)
    requires IsRun(states, events) && i in states[0].nodes
    ensures |holds| == |states| && |cause| == |settled| == |events| && !holds[0]
    ensures forall l :: 0 <= l < |states| ==> i in states[l].nodes && holds[l] == Lags(states[l].nodes[i])
    ensures forall l: nat :: l < |events| ==>
              cause[l] == DeposedAt(states, events, l, i) && settled[l] == SettledAt(states, events, l, i)
    ensures forall l :: 0 <= l < |cause| ==> (holds[l + 1] <==> cause[l] || (holds[l] && !settled[l]))
  {
    holds := seq(|states|, l => 0 <= l < |states| && i in states[l].nodes && Lags(states[l].nodes[i]));
    cause := seq(|events|, l => 0 <= l && DeposedAt(states, events, l, i));
    settled := seq(|events|, l => 0 <= l && SettledAt(states, events, l, i));
    forall l | 0 <= l < |states| ensures i in states[l].nodes {
      NodesStay(states, events, l, i);
    }
    forall l | 0 <= l < |events| ensures holds[l + 1] <==> cause[l] || (holds[l] && !settled[l]) {
      LagStep(states, events, l, i);
    }
    FreshNode(states[0], i);
  }

  lemma FreshNode(s: Cluster, i: NodeId)
    requires Init(s) && i in s.nodes
    ensures !Lags(s.nodes[i])
  {
    assert s.nodes[i] == Restart(None);
  }

  /** A node's durable term is behind its term in memory exactly when, as a leader, it was deposed by the answer to
      an append request, and has neither saved its state nor crashed since. */
  lemma LagsExactlyWhenDeposed(states: seq<Cluster>, events: seq<Event>, k: nat, i: NodeId)
    requires IsRun(states, events) && k < |states| && i in states[0].nodes
    ensures i in states[k].nodes
    ensures Lags(states[k].nodes[i]) <==>
            exists j: nat :: j < k && DeposedAt(states, events, j, i) && UnsettledSince(states, events, j, k, i)
  {
    var holds, cause, settled := LagsTable(states, events, i);
    LastsSinceCause(holds, cause, settled, k);
    if Lags(states[k].nodes[i]) {
      var j :| 0 <= j < k && cause[j] && forall l :: j < l < k ==> !settled[l];
      assert DeposedAt(states, events, j, i) && UnsettledSince(states, events, j, k, i);
    } else {
      forall j: nat | j < k && DeposedAt(states, events, j, i) ensures !UnsettledSince(states, events, j, k, i) {
        assert cause[j];
        var l :| j < l < k && settled[l];
        assert SettledAt(states, events, l, i);
      }
    }
  }

  // ---------- the gap does occur ----------

  const BALLOT: VoteArgs := VoteArgs(1, 0, 0, 0)
  const YES: Message := VoteAnswer(1, 0, 1, VoteReply(1, true))
  const HEARTBEAT: AppendArgs := AppendArgs(1, 0, 0, 0, [], 0)
  const REFUSAL: Message := AppendAnswer(1, HEARTBEAT, AppendReply(2, false, 0))

  /** Two servers, of which the first is in this state, the second in this term, and this message was sent. */
  ghost predicate Scene(s: Cluster, n: Node, term: Term, m: Message) {
    s.nodes.Keys == s.servers == {0, 1} && s.nodes[0] == n && s.nodes[1].term == term && m in s.net
  }

  function Winner(): Node {
    BecomeLeader({1}, StartElection(0, Restart(None)).(votes := {0, 1}))
  }

  lemma CandidateStands(s: Cluster)
    requires Init(s) && s.servers == {0, 1}
    ensures Enabled(s, Timeout(0))
    ensures Scene(Next(s, Timeout(0)), StartElection(0, Restart(None)), 0, VoteRequest(BALLOT))
    ensures Next(s, Timeout(0)).nodes[1] == Restart(None)
  {
  }

  lemma VoteIsGranted(s: Cluster)
    requires Scene(s, StartElection(0, Restart(None)), 0, VoteRequest(BALLOT)) && s.nodes[1] == Restart(None)
    ensures var e := DeliverVoteRequest(1, VoteRequest(BALLOT));
            Enabled(s, e) && Scene(Next(s, e), StartElection(0, Restart(None)), 1, YES)
  {
  }

  lemma VoteIsCounted(s: Cluster)
    requires Scene(s, StartElection(0, Restart(None)), 1, YES)
    ensures Enabled(s, DeliverVoteAnswer(YES)) && Scene(Next(s, DeliverVoteAnswer(YES)), Winner(), 1, YES)
  {
    assert Peers(s.servers, 0) == {1};
    assert s.nodes[0].votes + {1} == {0, 1};
  }

  lemma HeartbeatIsSent(s: Cluster)
    requires Scene(s, Winner(), 1, YES)
    ensures Enabled(s, SendAppend(0, 1))
    ensures Scene(Next(s, SendAppend(0, 1)), Winner(), 1, AppendRequest(1, HEARTBEAT))
  {
    assert Winner().log[1..] == [];
    assert AppendFor(0, Winner(), 1) == Some(HEARTBEAT);
  }

  lemma RivalStands(s: Cluster)
    requires Scene(s, Winner(), 1, AppendRequest(1, HEARTBEAT))
    ensures Enabled(s, Timeout(1)) && Scene(Next(s, Timeout(1)), Winner(), 2, AppendRequest(1, HEARTBEAT))
  {
  }

  lemma HeartbeatIsRefused(s: Cluster)
    requires Scene(s, Winner(), 2, AppendRequest(1, HEARTBEAT))
    ensures var e := DeliverAppend(AppendRequest(1, HEARTBEAT));
            Enabled(s, e) && Scene(Next(s, e), Winner(), 2, REFUSAL)
  {
  }

  lemma LeaderIsDeposed(s: Cluster)
    requires Scene(s, Winner(), 2, REFUSAL)
    ensures var e := DeliverAppendAnswer(REFUSAL);
            Enabled(s, e) && Scene(Next(s, e), StepDown(Winner(), 2), 2, REFUSAL)
  {
  }

  lemma NodeRestarts(s: Cluster)
    requires Scene(s, StepDown(Winner(), 2), 2, REFUSAL)
    ensures Enabled(s, CrashRestart(0)) && 0 in Next(s, CrashRestart(0)).nodes
    ensures Next(s, CrashRestart(0)).nodes[0].term == 1
  {
  }

  lemma RunStarts(s: Cluster)
    requires Init(s)
    ensures IsRun([s], [])
  {
  }

  lemma ElectionRun(s: Cluster) returns (states: seq<Cluster>, events: seq<Event>)
    requires Init(s) && s.servers == {0, 1}
    ensures IsRun(states, events) && states[0] == s && |events| == 3 && Scene(states[3], Winner(), 1, YES)
  {
    RunStarts(s);
    CandidateStands(s);
    states, events := Extend([s], [], Timeout(0));
    states, events := CountRun(states, events);
  }

  lemma CountRun(states: seq<Cluster>, events: seq<Event>) returns (states': seq<Cluster>, events': seq<Event>)
    requires IsRun(states, events) && |events| == 1
    requires Scene(states[1], StartElection(0, Restart(None)), 0, VoteRequest(BALLOT))
    requires states[1].nodes[1] == Restart(None)
    ensures IsRun(states', events') && states'[0] == states[0] && |events'| == 3 && Scene(states'[3], Winner(), 1, YES)
  {
    VoteIsGranted(states[1]);
    states', events' := Extend(states, events, DeliverVoteRequest(1, VoteRequest(BALLOT)));
    VoteIsCounted(states'[2]);
    states', events' := Extend(states', events', DeliverVoteAnswer(YES));
  }

  lemma RefusalRun(states: seq<Cluster>, events: seq<Event>) returns (states': seq<Cluster>, events': seq<Event>)
    requires IsRun(states, events) && |events| == 3 && Scene(states[3], Winner(), 1, YES)
    ensures IsRun(states', events') && states'[0] == states[0] && |events'| == 6
    ensures Scene(states'[6], Winner(), 2, REFUSAL)
  {
    HeartbeatIsSent(states[3]);
    states', events' := Extend(states, events, SendAppend(0, 1));
    RivalStands(states'[4]);
    states', events' := Extend(states', events', Timeout(1));
    HeartbeatIsRefused(states'[5]);
    states', events' := Extend(states', events', DeliverAppend(AppendRequest(1, HEARTBEAT)));
  }

  /** A run in which it happens: a leader of term 1 is told of term 2 in answer to a heartbeat, and steps down with
      term 1 still on disk. A crash at that point takes it back to term 1. */
  lemma LagExample(s: Cluster) returns (states: seq<Cluster>, events: seq<Event>)
    requires Init(s) && s.servers == {0, 1}
    ensures IsRun(states, events) && states[0] == s && |events| == 8
    ensures 0 in states[7].nodes && states[7].nodes[0].term == 2 && Recovered(states[7].nodes[0].disk).term == 1
    ensures 0 in states[8].nodes && states[8].nodes[0].term == 1
  {
    states, events := ElectionRun(s);
    states, events := RefusalRun(states, events);
    LeaderIsDeposed(states[6]);
    states, events := Extend(states, events, DeliverAppendAnswer(REFUSAL));
    NodeRestarts(states[7]);
    states, events := Extend(states, events, CrashRestart(0));
  }
}
