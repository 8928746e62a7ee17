/** A cluster of Raft nodes as a step relation. Messages are never removed from the network, so a message
    may be delivered late, out of order, repeatedly or never. The history records what has happened so far
    and never influences a node; nodes and network evolve exactly as without it. */
module RaftCluster {
  import opened Options
  import opened RaftTypes
  import opened RaftHandlers

  datatype Message =
    | VoteRequest(args: VoteArgs)
    | VoteAnswer(from: NodeId, to: NodeId, asked: Term, reply: VoteReply)
    | AppendRequest(to: NodeId, append: AppendArgs)
    | AppendAnswer(from: NodeId, append: AppendArgs, answer: AppendReply)

  /** One won election: the winner, the voters it counted, its log then (`start`) and since (`log`). */
  datatype Election = Election(leader: NodeId, voters: set<NodeId>, start: Log, log: Log)

  /** A leader of `term` moved its commitIndex to `index` on the strength of `quorum`. */
  datatype Commit = Commit(term: Term, index: nat, quorum: set<NodeId>)

  datatype Applied = Applied(node: NodeId, index: nat, command: Command)

  /** `ballots`: the vote cast by a node in a term. `bids`: a candidate's log when it stood in a term.
      `acks`: the highest index of the term's leader log that a node has reported as matching. */
  datatype History = History(
    ballots: map<(NodeId, Term), NodeId>,
    bids: map<(NodeId, Term), Log>,
    acks: map<(NodeId, Term), nat>,
    terms: map<Term, Election>,
    commits: set<Commit>,
    applied: set<Applied>)

  datatype Cluster = Cluster(servers: set<NodeId>, nodes: map<NodeId, Node>, net: set<Message>, h: History)

  function Peers(servers: set<NodeId>, i: NodeId): set<NodeId> {
    servers - {i}
  }

  predicate IsQuorum(servers: set<NodeId>, q: set<NodeId>) {
    q <= servers && 2 * |q| > |servers|
  }

  const NO_HISTORY: History := History(map[], map[], map[], map[], {}, {})

  predicate Init(s: Cluster) {
    && s.nodes.Keys == s.servers
    && (forall i <- s.servers :: s.nodes[i] == Restart(None))
    && s.net == {}
    && s.h == NO_HISTORY
  }

  // ---------- history updates ----------

  function Raise(acks: map<(NodeId, Term), nat>, i: NodeId, t: Term, k: nat): map<(NodeId, Term), nat> {
    if (i, t) in acks && acks[(i, t)] >= k then acks else acks[(i, t) := k]
  }

  function RecordBid(h: History, i: NodeId, t: Term, log: Log): History {
    h.(ballots := h.ballots[(i, t) := i], bids := h.bids[(i, t) := log])
  }

  function RecordVote(h: History, i: NodeId, t: Term, c: NodeId): History {
    h.(ballots := h.ballots[(i, t) := c])
  }

  function RecordWin(h: History, i: NodeId, t: Term, voters: set<NodeId>, log: Log): History {
    h.(terms := h.terms[t := Election(i, voters, log, log)], acks := Raise(h.acks, i, t, LastIndex(log)))
  }

  function RecordProposal(h: History, i: NodeId, t: Term, log: Log): History {
    if t !in h.terms then h
    else h.(terms := h.terms[t := h.terms[t].(log := log)], acks := Raise(h.acks, i, t, LastIndex(log)))
  }

  function RecordAck(h: History, i: NodeId, t: Term, k: nat): History {
    h.(acks := Raise(h.acks, i, t, k))
  }

  function RecordCommit(h: History, t: Term, k: nat, q: set<NodeId>): History {
    h.(commits := h.commits + {Commit(t, k, q)})
  }

  function RecordApply(h: History, i: NodeId, k: nat, c: Command): History {
    h.(applied := h.applied + {Applied(i, k, c)})
  }

  // ---------- steps ----------

  datatype Event =
    | Timeout(i: NodeId)
    | DeliverVoteRequest(i: NodeId, m: Message)
    | DeliverVoteAnswer(m: Message)
    | ClientStart(i: NodeId, command: Command)
    | SendAppend(i: NodeId, peer: NodeId)
    | DeliverAppend(m: Message)
    | DeliverAppendAnswer(m: Message)
    | ApplyOne(i: NodeId)
    | CrashRestart(i: NodeId)

  /** The node an event runs on. */
  function Actor(e: Event): NodeId {
    match e
    case Timeout(i) => i
    case DeliverVoteRequest(i, _) => i
    case DeliverVoteAnswer(m) => if m.VoteAnswer? then m.to else 0
    case ClientStart(i, _) => i
    case SendAppend(i, _) => i
    case DeliverAppend(m) => if m.AppendRequest? then m.to else 0
    case DeliverAppendAnswer(m) => if m.AppendAnswer? then m.append.leader else 0
    case ApplyOne(i) => i
    case CrashRestart(i) => i
  }

  predicate Enabled(s: Cluster, e: Event) {
    && Actor(e) in s.nodes
    && match e
       case DeliverVoteRequest(i, m) => m.VoteRequest? && m in s.net && i != m.args.candidate
       case DeliverVoteAnswer(m) => m.VoteAnswer? && m in s.net
       case SendAppend(i, p) => p in Peers(s.servers, i)
       case DeliverAppend(m) => m.AppendRequest? && m in s.net
       case DeliverAppendAnswer(m) => m.AppendAnswer? && m in s.net
       case ApplyOne(i) => CanApply(s.nodes[i])
       case _ => true
  }

  /** A step's effect: the acting node's new state, the messages it sends, the new history. */
  datatype Effect = Effect(node: Node, sent: set<Message>, h: History)

  function OnTimeout(i: NodeId, n: Node, h: History): Effect {
    var n' := StartElection(i, n);
    Effect(n', {VoteRequest(BallotFor(i, n'))}, RecordBid(h, i, n'.term, n'.log))
  }

  function OnVoteRequest(i: NodeId, n: Node, h: History, a: VoteArgs): Effect {
    var (n', r) := RequestVote(n, a);
    Effect(n', {VoteAnswer(i, a.candidate, a.term, r)},
           if r.granted then RecordVote(h, i, a.term, a.candidate) else h)
  }

  function OnVoteAnswer(servers: set<NodeId>, i: NodeId, n: Node, h: History,
                        from: NodeId, asked: Term, r: VoteReply): Effect {
    var n' := HandleVoteReply(Peers(servers, i), n, from, asked, r);
    Effect(n', {},
           if n.role == Candidate && n'.role == Leader then RecordWin(h, i, n'.term, n'.votes, n'.log) else h)
  }

  function OnStart(i: NodeId, n: Node, h: History, command: Command): Effect {
    var n' := Propose(n, command);
    Effect(n', {}, if n.role == Leader then RecordProposal(h, i, n'.term, n'.log) else h)
  }

  function OnSend(i: NodeId, n: Node, h: History, peer: NodeId): Effect {
    var a := AppendFor(i, n, peer);
    Effect(n, if n.role == Leader && a.Some? then {AppendRequest(peer, a.value)} else {}, h)
  }

  function OnAppend(i: NodeId, n: Node, h: History, a: AppendArgs): Effect {
    var (n', r) := AppendEntries(n, a);
    Effect(n', {AppendAnswer(i, a, r)},
           if r.success then RecordAck(h, i, a.term, a.prevIndex + |a.entries|) else h)
  }

  function OnAppendAnswer(servers: set<NodeId>, i: NodeId, n: Node, h: History,
                          from: NodeId, a: AppendArgs, r: AppendReply): Effect {
    var peers := Peers(servers, i);
    var n' := HandleAppendReply(peers, n, from, a, r);
    Effect(n', {},
           if n'.commitIndex > n.commitIndex
           then RecordCommit(h, n'.term, n'.commitIndex, {i} + Matching(peers, n', n'.commitIndex)) else h)
  }

  function OnApply(i: NodeId, n: Node, h: History): Effect {
    var (n', c) := ApplyNext(n);
    Effect(n', {}, if c.Some? then RecordApply(h, i, n'.lastApplied, c.value) else h)
  }

  function EffectOf(s: Cluster, e: Event): Effect
    requires Enabled(s, e)
  {
    var i := Actor(e);
    var n := s.nodes[i];
    match e
    case Timeout(_) => OnTimeout(i, n, s.h)
    case DeliverVoteRequest(_, m) => OnVoteRequest(i, n, s.h, m.args)
    case DeliverVoteAnswer(m) => OnVoteAnswer(s.servers, i, n, s.h, m.from, m.asked, m.reply)
    case ClientStart(_, command) => OnStart(i, n, s.h, command)
    case SendAppend(_, peer) => OnSend(i, n, s.h, peer)
    case DeliverAppend(m) => OnAppend(i, n, s.h, m.append)
    case DeliverAppendAnswer(m) => OnAppendAnswer(s.servers, i, n, s.h, m.from, m.append, m.answer)
    case ApplyOne(_) => OnApply(i, n, s.h)
    case CrashRestart(_) => Effect(Restart(n.disk), {}, s.h)
  }

  function Install(s: Cluster, i: NodeId, f: Effect): Cluster {
    Cluster(s.servers, s.nodes[i := f.node], s.net + f.sent, f.h)
  }

  function Next(s: Cluster, e: Event): Cluster
    requires Enabled(s, e)
  {
    Install(s, Actor(e), EffectOf(s, e))
  }

  /** `states` is a run of the cluster driven by `events`. */
  ghost predicate IsRun(states: seq<Cluster>, events: seq<Event>) {
    && |states| == |events| + 1
    && Init(states[0])
    && forall k {:trigger events[k]} :: 0 <= k < |events| ==>
         Enabled(states[k], events[k]) && states[k + 1] == Next(states[k], events[k])
  }

  /** One more step. */
  lemma Extend(states: seq<Cluster>, events: seq<Event>, e: Event)
    returns (states': seq<Cluster>, events': seq<Event>)
    requires IsRun(states, events) && Enabled(states[|events|], e)
    ensures IsRun(states', events')
    ensures states' == states + [Next(states[|events|], e)] && events' == events + [e]
  {
    states', events' := states + [Next(states[|events|], e)], events + [e];
    forall k | 0 <= k < |events'|
      ensures Enabled(states'[k], events'[k]) && states'[k + 1] == Next(states'[k], events'[k])
    {
      if k < |events| {
        assert events'[k] == events[k];
      }
    }
  }
}
