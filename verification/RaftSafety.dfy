/** The guarantees of Raft over every run: any interleaving of timeouts, client commands, late, reordered,
    repeated or lost messages, and crashes with restart. No statement here assumes anything but a run. */
module RaftSafety {
  import opened Options
  import opened RaftTypes
  import opened RaftHandlers
  import opened RaftCluster
  import opened RaftInvariant
  import opened RaftHistory
  import opened RaftCompleteness
  import opened RaftFrames
  import opened RaftElectionSteps
  import opened RaftReplicationSteps

  // ---------- the invariant holds in every reachable state ----------

  lemma InitHasInv(s: Cluster)
    requires Init(s)
    ensures Inv(s)
  {
    forall i <- s.servers ensures NodeInv(s.servers, s.h, i, s.nodes[i]) {
      assert s.nodes[i] == Restart(None);
      assert GoodLog(s.h.terms, s.nodes[i].log);
    }
  }

  lemma EffectOk(s: Cluster, e: Event)
    requires Inv(s) && Enabled(s, e)
    ensures StepOk(s.servers, s.h, Actor(e), EffectOf(s, e))
  {
    var i := Actor(e);
    var n, h := s.nodes[i], s.h;
    assert NodeInv(s.servers, h, i, n);
    match e {
      case Timeout(_) => TimeoutKeeps(s.servers, h, i, n);
      case DeliverVoteRequest(_, m) =>
        assert MessageOk(s.servers, h, m);
        VoteRequestKeeps(s.servers, h, i, n, m.args);
      case DeliverVoteAnswer(m) =>
        assert MessageOk(s.servers, h, m);
        VoteAnswerKeeps(s.servers, h, i, n, m.from, m.asked, m.reply);
      case ClientStart(_, command) => StartKeeps(s.servers, h, i, n, command);
      case SendAppend(_, peer) => SendKeeps(s.servers, h, i, n, peer);
      case DeliverAppend(m) =>
        assert MessageOk(s.servers, h, m);
        AppendKeeps(s.servers, h, i, n, m.append);
      case DeliverAppendAnswer(m) =>
        assert MessageOk(s.servers, h, m);
        AppendAnswerKeeps(s.servers, h, i, n, m.from, m.append, m.answer);
      case ApplyOne(_) => ApplyKeeps(s.servers, h, i, n);
      case CrashRestart(_) => CrashKeeps(s.servers, h, i, n);
    }
  }

  /** Every step of the protocol keeps the invariant. */
  lemma NextKeepsInv(s: Cluster, e: Event)
    requires Inv(s) && Enabled(s, e)
    ensures Inv(Next(s, e))
  {
    EffectOk(s, e);
    StepKeepsInv(s, Actor(e), EffectOf(s, e));
  }

  lemma {:induction false} RunHasInv(states: seq<Cluster>, events: seq<Event>, k: nat)
    requires IsRun(states, events) && k < |states|
    ensures Inv(states[k]) && states[k].servers == states[0].servers
  {
    if k == 0 {
      InitHasInv(states[0]);
    } else {
      RunHasInv(states, events, k - 1);
      assert states[k] == Next(states[k - 1], events[k - 1]);
      NextKeepsInv(states[k - 1], events[k - 1]);
    }
  }

  lemma ReachableNode(states: seq<Cluster>, events: seq<Event>, k: nat, i: NodeId)
    requires IsRun(states, events) && k < |states| && i in states[k].nodes
    ensures HistoryInv(states[k].servers, states[k].h) && i in states[k].servers
    ensures NodeInv(states[k].servers, states[k].h, i, states[k].nodes[i])
  {
    RunHasInv(states, events, k);
  }

  lemma ReachableMessage(states: seq<Cluster>, events: seq<Event>, k: nat, m: Message)
    requires IsRun(states, events) && k < |states| && m in states[k].net
    ensures states[k].nodes.Keys == states[k].servers
    ensures MessageOk(states[k].servers, states[k].h, m)
  {
    RunHasInv(states, events, k);
  }

  // ---------- the history only grows ----------

  ghost predicate Grows(h: History, h': History) {
    && (forall t: Term :: t in h.terms ==>
          && t in h'.terms
          && h'.terms[t].leader == h.terms[t].leader
          && h'.terms[t].start == h.terms[t].start
          && Agree(h.terms[t].log, h'.terms[t].log, |h.terms[t].log|))
    && (forall v: NodeId, t: Term :: (v, t) in h.ballots ==>
          (v, t) in h'.ballots && h'.ballots[(v, t)] == h.ballots[(v, t)])
    && h.commits <= h'.commits
    && h.applied <= h'.applied
  }

  lemma {:induction false} HistoryGrows(states: seq<Cluster>, events: seq<Event>, j: nat, k: nat)
    requires IsRun(states, events) && j <= k < |states|
    ensures Grows(states[j].h, states[k].h)
    decreases k
  {
    if j < k {
      HistoryGrows(states, events, j, k - 1);
      StepGrows(states[j].h, states, events, k - 1);
    }
  }

  lemma StepGrows(h: History, states: seq<Cluster>, events: seq<Event>, k: nat)
    requires IsRun(states, events) && k < |events| && Grows(h, states[k].h)
    ensures Grows(h, states[k + 1].h)
  {
    RunHasInv(states, events, k);
    NextExtends(states[k], events[k]);
    GrowsOnce(h, states[k].h, states[k + 1].h, Actor(events[k]));
  }

  lemma NextExtends(s: Cluster, e: Event)
    requires Inv(s) && Enabled(s, e)
    ensures ExtendedBy(s.h, Next(s, e).h, Actor(e))
  {
    EffectOk(s, e);
  }

  lemma GrowsOnce(a: History, b: History, c: History, i: NodeId)
    requires Grows(a, b) && ExtendedBy(b, c, i)
    ensures Grows(a, c)
  {
  }

  /** The state a run ends in, with everything any earlier state recorded. */
  lemma AtEnd(states: seq<Cluster>, events: seq<Event>, k: nat) returns (last: Cluster)
    requires IsRun(states, events) && k < |states|
    ensures last == states[|states| - 1]
    ensures Inv(last) && last.servers == states[0].servers && Grows(states[k].h, last.h)
  {
    last := states[|states| - 1];
    RunHasInv(states, events, |states| - 1);
    HistoryGrows(states, events, k, |states| - 1);
  }

  /** A node's log at any time is good with respect to everything that happens in the run. */
  lemma LogGoodAtEnd(states: seq<Cluster>, events: seq<Event>, k: nat, i: NodeId)
    requires IsRun(states, events) && k < |states| && i in states[k].nodes
    ensures GoodLog(states[|states| - 1].h.terms, states[k].nodes[i].log)
  {
    ReachableNode(states, events, k, i);
    var last := AtEnd(states, events, k);
    GoodLogGrows(states[k].h, last.h, states[k].nodes[i].log);
  }

  lemma GoodLogGrows(h: History, h': History, log: Log)
    requires Grows(h, h') && GoodLog(h.terms, log)
    ensures GoodLog(h'.terms, log)
  {
    forall k | 0 < k < |log| ensures EntryBacked(h'.terms, log, k) {
      assert EntryBacked(h.terms, log, k);
    }
  }

  // ---------- Election Safety ----------

  /** At most one node is ever leader in a term, over the whole run and all incarnations. */
  lemma ElectionSafety(states: seq<Cluster>, events: seq<Event>, j: nat, a: NodeId, k: nat, b: NodeId)
    requires IsRun(states, events) && j < |states| && k < |states|
    requires a in states[j].nodes && states[j].nodes[a].role == Leader
    requires b in states[k].nodes && states[k].nodes[b].role == Leader
    requires states[j].nodes[a].term == states[k].nodes[b].term
    ensures a == b
  {
    LeaderInHistory(states, events, j, a);
    LeaderInHistory(states, events, k, b);
  }

  lemma LeaderInHistory(states: seq<Cluster>, events: seq<Event>, k: nat, i: NodeId)
    requires IsRun(states, events) && k < |states|
    requires i in states[k].nodes && states[k].nodes[i].role == Leader
    ensures var h, n := states[|states| - 1].h, states[k].nodes[i];
            && n.term in h.terms && h.terms[n.term].leader == i
            && Agree(h.terms[n.term].start, n.log, |h.terms[n.term].start|)
            && Agree(n.log, h.terms[n.term].log, |n.log|)
  {
    ReachableNode(states, events, k, i);
    var last := AtEnd(states, events, k);
    var s, n := states[k], states[k].nodes[i];
    assert ElectionOk(s.servers, s.h, n.term);
  }

  /** No node grants two votes in one term, however often it restarts in between. */
  lemma OneVotePerTerm(states: seq<Cluster>, events: seq<Event>, k: nat, m: Message, m': Message)
    requires IsRun(states, events) && k < |states|
    requires m in states[k].net && m.VoteAnswer? && m.reply.granted
    requires m' in states[k].net && m'.VoteAnswer? && m'.reply.granted
    requires m.from == m'.from && m.asked == m'.asked
    ensures m.to == m'.to
  {
    ReachableMessage(states, events, k, m);
    ReachableMessage(states, events, k, m');
  }

  // ---------- Log Matching ----------

  /** Two logs held by any nodes at any times of the run that carry the same term at an index are identical up
      to it, and terms along a log never decrease. */
  lemma LogMatchingInRuns(states: seq<Cluster>, events: seq<Event>, j: nat, a: NodeId, k: nat, b: NodeId, x: nat)
    requires IsRun(states, events) && j < |states| && k < |states|
    requires a in states[j].nodes && b in states[k].nodes
    requires x < |states[j].nodes[a].log| && x < |states[k].nodes[b].log|
    requires states[j].nodes[a].log[x].term == states[k].nodes[b].log[x].term
    ensures Agree(states[j].nodes[a].log, states[k].nodes[b].log, x + 1)
    ensures Ascending(states[j].nodes[a].log)
  {
    LogGoodAtEnd(states, events, j, a);
    LogGoodAtEnd(states, events, k, b);
    LogMatching(states[|states| - 1].h.terms, states[j].nodes[a].log, states[k].nodes[b].log, x);
  }

  /** The same between a log and an append request in flight: an entry of the request whose term the log also
      has at that index is the log's entry, and so are all entries the request carries before it. */
  lemma LogMatchingInFlight(states: seq<Cluster>, events: seq<Event>, j: nat, i: NodeId, k: nat, m: Message, x: nat)
    requires IsRun(states, events) && j < |states| && k < |states|
    requires i in states[j].nodes && m in states[k].net && m.AppendRequest?
    requires x < |m.append.entries| && m.append.prevIndex + 1 + x < |states[j].nodes[i].log|
    requires states[j].nodes[i].log[m.append.prevIndex + 1 + x].term == m.append.entries[x].term
    ensures var log, a := states[j].nodes[i].log, m.append;
            && log[a.prevIndex].term == a.prevTerm
            && log[a.prevIndex + 1..a.prevIndex + 2 + x] == a.entries[..x + 1]
  {
    var a, log := m.append, states[j].nodes[i].log;
    RequestInHistory(states, events, k, m);
    LogGoodAtEnd(states, events, j, i);
    SliceMatches(states[|states| - 1].h.terms, log, states[|states| - 1].h.terms[a.term].log, a, x);
  }

  /** `a` carries a slice of `leader`. */
  ghost predicate SliceOf(leader: Log, a: AppendArgs) {
    && a.prevIndex + 1 + |a.entries| <= |leader|
    && leader[a.prevIndex].term == a.prevTerm
    && leader[a.prevIndex + 1..a.prevIndex + 1 + |a.entries|] == a.entries
  }

  /** A request ever sent is a slice of its leader's log as it is at the end of the run. */
  lemma RequestInHistory(states: seq<Cluster>, events: seq<Event>, k: nat, m: Message)
    requires IsRun(states, events) && k < |states| && m in states[k].net && m.AppendRequest?
    ensures var terms := states[|states| - 1].h.terms;
            m.append.term in terms && GoodLog(terms, terms[m.append.term].log) && SliceOf(terms[m.append.term].log, m.append)
  {
    ReachableMessage(states, events, k, m);
    var last := AtEnd(states, events, k);
    assert ElectionOk(last.servers, last.h, m.append.term);
    SliceGrows(states[k].h.terms[m.append.term].log, last.h.terms[m.append.term].log, m.append);
  }

  lemma SliceGrows(log: Log, log': Log, a: AppendArgs)
    requires SliceOf(log, a) && Agree(log, log', |log|)
    ensures SliceOf(log', a)
  {
    assert log'[a.prevIndex + 1..a.prevIndex + 1 + |a.entries|] == log[a.prevIndex + 1..a.prevIndex + 1 + |a.entries|];
  }

  lemma SliceMatches(terms: map<Term, Election>, log: Log, leader: Log, a: AppendArgs, x: nat)
    requires GoodLog(terms, log) && GoodLog(terms, leader) && SliceOf(leader, a)
    requires x < |a.entries| && a.prevIndex + 1 + x < |log|
    requires log[a.prevIndex + 1 + x].term == a.entries[x].term
    ensures log[a.prevIndex].term == a.prevTerm
    ensures log[a.prevIndex + 1..a.prevIndex + 2 + x] == a.entries[..x + 1]
  {
    assert leader[a.prevIndex + 1 + x] == a.entries[x];
    LogMatching(terms, log, leader, a.prevIndex + 1 + x);
    forall y | 0 <= y <= x ensures log[a.prevIndex + 1 + y] == a.entries[y] {
      assert leader[a.prevIndex + 1 + y] == a.entries[y];
    }
  }

  // ---------- Leader Completeness ----------

  /** When event `k` moves a leader's commit index to `c`, its first entries up to `c` are in the log of every
      leader of every later term, at every moment of the run. */
  lemma LeaderCompleteness(states: seq<Cluster>, events: seq<Event>, k: nat, m: nat, b: NodeId)
    requires IsRun(states, events) && k < |events| && m < |states|
    requires events[k].DeliverAppendAnswer?
    requires states[k + 1].nodes[Actor(events[k])].commitIndex > states[k].nodes[Actor(events[k])].commitIndex
    requires b in states[m].nodes && states[m].nodes[b].role == Leader
    requires states[m].nodes[b].term > states[k + 1].nodes[Actor(events[k])].term
    ensures var n := states[k + 1].nodes[Actor(events[k])];
            Agree(n.log, states[m].nodes[b].log, n.commitIndex + 1)
  {
    var i := Actor(events[k]);
    var n, u := states[k + 1].nodes[i], states[m].nodes[b].term;
    LeaderInHistory(states, events, m, b);
    var c := CommitInHistory(states, events, k);
    var last := AtEnd(states, events, m);
    LaterLeaderStartsWith(last.servers, last.h, c, u);
  }

  /** The commit a leader makes is on record, with the leader's log. */
  lemma CommitInHistory(states: seq<Cluster>, events: seq<Event>, k: nat) returns (c: Commit)
    requires IsRun(states, events) && k < |events| && events[k].DeliverAppendAnswer?
    requires states[k + 1].nodes[Actor(events[k])].commitIndex > states[k].nodes[Actor(events[k])].commitIndex
    ensures var h, n := states[|states| - 1].h, states[k + 1].nodes[Actor(events[k])];
            && c in h.commits && c.term == n.term && c.index == n.commitIndex && n.term in h.terms
            && n.commitIndex < |n.log| && Agree(n.log, h.terms[n.term].log, |n.log|)
  {
    var i := Actor(events[k]);
    IndexOrder(states, events, k + 1, i);
    var s, s' := states[k], states[k + 1];
    assert s' == Next(s, events[k]);
    var n := s'.nodes[i];
    c := Commit(n.term, n.commitIndex, {i} + Matching(Peers(s.servers, i), n, n.commitIndex));
    CommitIsRecorded(s, events[k]);
    LeaderInHistory(states, events, k + 1, i);
    var last := AtEnd(states, events, k + 1);
  }

  lemma CommitIsRecorded(s: Cluster, e: Event)
    requires Enabled(s, e) && e.DeliverAppendAnswer?
    requires Next(s, e).nodes[Actor(e)].commitIndex > s.nodes[Actor(e)].commitIndex
    ensures var n := Next(s, e).nodes[Actor(e)];
            && n.role == Leader
            && Commit(n.term, n.commitIndex, {Actor(e)} + Matching(Peers(s.servers, Actor(e)), n, n.commitIndex))
               in Next(s, e).h.commits
  {
  }

  // ---------- State Machine Safety ----------

  /** What the event hands to the state machine, and at which index. */
  function Delivered(s: Cluster, e: Event): Option<Command>
    requires Enabled(s, e) && e.ApplyOne?
  {
    ApplyNext(s.nodes[e.i]).1
  }

  function DeliveredAt(s: Cluster, e: Event): nat
    requires Enabled(s, e) && e.ApplyOne?
  {
    s.nodes[e.i].lastApplied + 1
  }

  /** Any two deliveries at the same index, by any nodes in any incarnations, deliver the same command. */
  lemma StateMachineSafety(states: seq<Cluster>, events: seq<Event>, j: nat, k: nat)
    requires IsRun(states, events) && j < |events| && k < |events|
    requires events[j].ApplyOne? && events[k].ApplyOne?
    requires DeliveredAt(states[j], events[j]) == DeliveredAt(states[k], events[k])
    ensures Delivered(states[j], events[j]).Some?
    ensures Delivered(states[j], events[j]) == Delivered(states[k], events[k])
  {
    var a := DeliveryInHistory(states, events, j);
    var b := DeliveryInHistory(states, events, k);
    var last := AtEnd(states, events, j);
    SameIndexSameCommand(last.servers, last.h, a, b);
  }

  lemma DeliveryInHistory(states: seq<Cluster>, events: seq<Event>, k: nat) returns (a: Applied)
    requires IsRun(states, events) && k < |events| && events[k].ApplyOne?
    ensures a in states[|states| - 1].h.applied
    ensures a.index == DeliveredAt(states[k], events[k])
    ensures Delivered(states[k], events[k]) == Some(a.command)
  {
    var s, i := states[k], events[k].i;
    ReachableNode(states, events, k, i);
    ApplyKeeps(s.servers, s.h, i, s.nodes[i]);
    a := Applied(i, s.nodes[i].lastApplied + 1, ApplyNext(s.nodes[i]).1.value);
    assert states[k + 1] == Next(s, events[k]);
    assert a in states[k + 1].h.applied;
    var last := AtEnd(states, events, k + 1);
  }

  lemma SameIndexSameCommand(servers: set<NodeId>, h: History, a: Applied, b: Applied)
    requires HistoryInv(servers, h) && a in h.applied && b in h.applied && a.index == b.index
    ensures a.command == b.command
  {
    assert AppliedCommitted(h, a) && AppliedCommitted(h, b);
    var c :| c in h.commits && c.term in h.terms && a.index <= c.index < |h.terms[c.term].log|
             && h.terms[c.term].log[a.index].command == a.command;
    var d :| d in h.commits && d.term in h.terms && b.index <= d.index < |h.terms[d.term].log|
             && h.terms[d.term].log[b.index].command == b.command;
    if c.term <= d.term {
      CommitsAgree(servers, h, c, d);
    } else {
      CommitsAgree(servers, h, d, c);
    }
  }

  // ---------- commit index ----------

  /** On every node, in every reachable state, lastApplied <= commitIndex <= the last index. */
  lemma IndexOrder(states: seq<Cluster>, events: seq<Event>, k: nat, i: NodeId)
    requires IsRun(states, events) && k < |states| && i in states[k].nodes
    ensures states[k].nodes[i].lastApplied <= states[k].nodes[i].commitIndex <= LastIndex(states[k].nodes[i].log)
  {
    ReachableNode(states, events, k, i);
  }

  /** Within an incarnation a commit index never decreases, and no step ever removes or changes an entry at or
      below it, not even a crash. */
  lemma CommittedStays(states: seq<Cluster>, events: seq<Event>, k: nat, i: NodeId)
    requires IsRun(states, events) && k < |events| && i in states[k].nodes
    ensures i in states[k + 1].nodes
    ensures events[k] != CrashRestart(i) ==> states[k].nodes[i].commitIndex <= states[k + 1].nodes[i].commitIndex
    ensures Agree(states[k].nodes[i].log, states[k + 1].nodes[i].log, states[k].nodes[i].commitIndex + 1)
  {
    var s, e := states[k], events[k];
    RunHasInv(states, events, k);
    assert states[k + 1] == Next(s, e);
    assert NodeInv(s.servers, s.h, i, s.nodes[i]);
    if i == Actor(e) {
      ActorCommitStays(s, e);
    }
  }

  lemma ActorCommitStays(s: Cluster, e: Event)
    requires Inv(s) && Enabled(s, e)
    ensures var n, n' := s.nodes[Actor(e)], EffectOf(s, e).node;
            && (!e.CrashRestart? ==> n.commitIndex <= n'.commitIndex)
            && Agree(n.log, n'.log, n.commitIndex + 1)
  {
    var i := Actor(e);
    var n := s.nodes[i];
    assert NodeInv(s.servers, s.h, i, n);
    if e.DeliverAppend? {
      assert MessageOk(s.servers, s.h, e.m);
      AppendCommitStays(s.servers, s.h, i, n, e.m.append);
    } else if e.DeliverAppendAnswer? {
      ReplyCommitStays(s.servers, i, n, s.h, e.m.from, e.m.append, e.m.answer);
    } else {
      OtherCommitStays(s, e);
    }
  }

  lemma OtherCommitStays(s: Cluster, e: Event)
    requires Enabled(s, e) && !e.DeliverAppend? && !e.DeliverAppendAnswer?
    requires DurableOk(s.nodes[Actor(e)]) && s.nodes[Actor(e)].commitIndex < |s.nodes[Actor(e)].log|
    ensures var n, n' := s.nodes[Actor(e)], EffectOf(s, e).node;
            && (!e.CrashRestart? ==> n.commitIndex == n'.commitIndex)
            && Agree(n.log, n'.log, n.commitIndex + 1)
  {
  }

  lemma AppendCommitStays(servers: set<NodeId>, h: History, i: NodeId, n: Node, a: AppendArgs)
    requires i in servers && HistoryInv(servers, h) && NodeInv(servers, h, i, n)
    requires AppendOk(h, a) && i != a.leader
    ensures var n' := OnAppend(i, n, h, a).node;
            && n.commitIndex <= n'.commitIndex
            && Agree(n.log, n'.log, n.commitIndex + 1)
  {
    AppendShape(i, n, h, a);
    if n.term <= a.term {
      BecomeFollowerKeeps(servers, h, i, n, a);
      if AppendEntries(n, a).1.success {
        AdoptKeepsCommit(servers, h, i, Arrived(n, a), a, a.term > n.term);
      }
    }
  }

  lemma ReplyCommitStays(servers: set<NodeId>, i: NodeId, n: Node, h: History,
                         from: NodeId, a: AppendArgs, r: AppendReply)
    ensures var n' := OnAppendAnswer(servers, i, n, h, from, a, r).node;
            n.commitIndex <= n'.commitIndex && n'.log == n.log
  {
    var m := Progressed(n, from, a.prevIndex + |a.entries|);
    CommitPointIsHighest(Peers(servers, i), m, LastIndex(m.log));
  }

  /** The minimum a follower takes never binds: a successful append leaves the larger of the two commit indexes. */
  lemma FollowerTakesLeaderCommit(states: seq<Cluster>, events: seq<Event>, k: nat)
    requires IsRun(states, events) && k < |events| && events[k].DeliverAppend?
    requires AppendEntries(states[k].nodes[Actor(events[k])], events[k].m.append).1.success
    ensures var n, a := states[k].nodes[Actor(events[k])], events[k].m.append;
            states[k + 1].nodes[Actor(events[k])].commitIndex ==
            if a.leaderCommit > n.commitIndex then a.leaderCommit else n.commitIndex
  {
    var s, i, a := states[k], Actor(events[k]), events[k].m.append;
    ReachableNode(states, events, k, i);
    ReachableMessage(states, events, k, events[k].m);
    AppendShape(i, s.nodes[i], s.h, a);
    BecomeFollowerKeeps(s.servers, s.h, i, s.nodes[i], a);
    AdoptKeepsCommit(s.servers, s.h, i, Arrived(s.nodes[i], a), a, a.term > s.nodes[i].term);
  }

  // ---------- durability ----------

  /** In every reachable state what a restart would load is the log in memory, with the same term and vote or,
      for a follower without a vote, an older term. */
  lemma DurableState(states: seq<Cluster>, events: seq<Event>, k: nat, i: NodeId)
    requires IsRun(states, events) && k < |states| && i in states[k].nodes
    ensures var n, p := states[k].nodes[i], Recovered(states[k].nodes[i].disk);
            && p.log == n.log
            && ((p.term == n.term && p.vote == n.vote) || (p.term < n.term && n.role == Follower && n.vote == None))
  {
    ReachableNode(states, events, k, i);
  }

  /** A vote ever granted binds every later restart: the durable term is at least the vote's and, while it is
      that term, the durable vote is the one granted. */
  lemma VoteSurvivesRestart(states: seq<Cluster>, events: seq<Event>, k: nat, m: Message)
    requires IsRun(states, events) && k < |states|
    requires m in states[k].net && m.VoteAnswer? && m.reply.granted
    ensures m.from in states[k].nodes
    ensures var p := Recovered(states[k].nodes[m.from].disk);
            m.asked <= p.term && (m.asked == p.term ==> p.vote == Some(m.to))
  {
    ReachableMessage(states, events, k, m);
    ReachableNode(states, events, k, m.from);
  }

  /** An entry of the request's own term that a follower acknowledged is in what the follower would restart
      from, unless the follower has durably seen a later term. */
  lemma AckSurvivesRestart(states: seq<Cluster>, events: seq<Event>, k: nat, m: Message, x: nat)
    requires IsRun(states, events) && k < |states|
    requires m in states[k].net && m.AppendAnswer? && m.answer.success
    requires x < |m.append.entries| && m.append.entries[x].term == m.append.term
    ensures m.from in states[k].nodes
    ensures var p, a := Recovered(states[k].nodes[m.from].disk), m.append;
            && a.term <= p.term
            && (a.term == p.term ==> a.prevIndex + 1 + x < |p.log| && p.log[a.prevIndex + 1 + x] == a.entries[x])
  {
    var s := states[k];
    ReachableMessage(states, events, k, m);
    ReachableNode(states, events, k, m.from);
    AckIsDurable(s.servers, s.h, m.from, s.nodes[m.from], m.append, x);
  }

  lemma AckIsDurable(servers: set<NodeId>, h: History, i: NodeId, n: Node, a: AppendArgs, x: nat)
    requires NodeInv(servers, h, i, n) && AppendOk(h, a)
    requires (i, a.term) in h.acks && a.prevIndex + |a.entries| <= h.acks[(i, a.term)]
    requires x < |a.entries| && a.entries[x].term == a.term
    ensures var p := Recovered(n.disk);
            && a.term <= p.term
            && (a.term == p.term ==> a.prevIndex + 1 + x < |p.log| && p.log[a.prevIndex + 1 + x] == a.entries[x])
  {
    var y := a.prevIndex + 1 + x;
    var leader := h.terms[a.term].log;
    assert leader[y] == leader[a.prevIndex + 1..a.prevIndex + 1 + |a.entries|][x];
    assert AckedEntry(h, i, a.term, y) && AckKept(h, i, n, a.term, y);
  }

  // ---------- no panics ----------

  /** A leader's next indexes stay in 1..last+1, so the slice in replicateTo is always in range; and every
      rejection that reaches it in its own term names an index in 1..prevIndex. */
  lemma NoOutOfRangeSlice(states: seq<Cluster>, events: seq<Event>, k: nat, i: NodeId, peer: NodeId)
    requires IsRun(states, events) && k < |states|
    requires i in states[k].nodes && states[k].nodes[i].role == Leader && peer in Peers(states[k].servers, i)
    ensures peer in states[k].nodes[i].nextIndex
    ensures 1 <= states[k].nodes[i].nextIndex[peer] <= |states[k].nodes[i].log|
    ensures AppendFor(i, states[k].nodes[i], peer).Some?
  {
    var s := states[k];
    ReachableNode(states, events, k, i);
    RequestIsSlice(s.servers, s.h, i, s.nodes[i], peer);
  }

  lemma RejectionNamesIndex(states: seq<Cluster>, events: seq<Event>, k: nat, m: Message)
    requires IsRun(states, events) && k < |states|
    requires m in states[k].net && m.AppendAnswer? && !m.answer.success && m.answer.term <= m.append.term
    ensures m.answer.term == m.append.term && 1 <= m.answer.conflictIndex <= m.append.prevIndex
  {
    ReachableMessage(states, events, k, m);
  }

  /** The history is only a record: nodes and network evolve the same whatever it holds. */
  lemma HistoryIsOnlyARecord(s: Cluster, e: Event, h: History)
    requires Enabled(s, e)
    ensures Enabled(s.(h := h), e)
    ensures Next(s.(h := h), e).nodes == Next(s, e).nodes && Next(s.(h := h), e).net == Next(s, e).net
  {
    var s' := s.(h := h);
    assert EffectOf(s', e).node == EffectOf(s, e).node && EffectOf(s', e).sent == EffectOf(s, e).sent;
  }
}
