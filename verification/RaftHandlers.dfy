/** What each critical section of a Raft node does to that node's state, as functions on values.
    The class in RaftNode runs the same sections in place and is proved to compute these functions. */
module RaftHandlers {
  import opened Options
  import opened RaftTypes

  // ---------- persistence (raft.go, storage.go) ----------

  function Persist(n: Node): Node {
    n.(disk := Some(PersistentState(n.term, n.vote, n.log)))
  }

  function PersistIf(changed: bool, n: Node): Node {
    if changed then Persist(n) else n
  }

  /** What a restart loads: nothing saved means a fresh node, and an empty saved log is ignored. */
  function Recovered(disk: Option<PersistentState>): PersistentState
    ensures |Recovered(disk).log| > 0
  {
    match disk
    case None => PersistentState(0, None, [SENTINEL])
    case Some(p) => if |p.log| > 0 then p else p.(log := [SENTINEL])
  }

  function Restart(disk: Option<PersistentState>): Node {
    var p := Recovered(disk);
    Node(p.term, p.vote, p.log, Follower, 0, 0, map[], map[], {}, disk)
  }

  // ---------- elections ----------

  function StepDown(n: Node, term: Term): Node {
    n.(role := Follower, term := term, vote := None)
  }

  function StartElection(me: NodeId, n: Node): Node {
    Persist(n.(role := Candidate, term := n.term + 1, vote := Some(me), votes := {me}))
  }

  function BallotFor(me: NodeId, n: Node): VoteArgs {
    VoteArgs(n.term, me, LastIndex(n.log), LastTerm(n.log))
  }

  predicate UpToDate(log: Log, a: VoteArgs) {
    if a.lastLogTerm != LastTerm(log) then a.lastLogTerm > LastTerm(log)
    else a.lastLogIndex >= LastIndex(log)
  }

  function RequestVote(n: Node, a: VoteArgs): (Node, VoteReply) {
    var m := if a.term > n.term then StepDown(n, a.term) else n;
    if a.term < m.term then (m, VoteReply(m.term, false))
    else
      var grant := (m.vote == None || m.vote == Some(a.candidate)) && UpToDate(m.log, a);
      if grant then (Persist(m.(vote := Some(a.candidate))), VoteReply(m.term, true))
      else (PersistIf(a.term > n.term, m), VoteReply(m.term, false))
  }

  function Majority(peers: set<NodeId>): nat {
    (|peers| + 1) / 2 + 1
  }

  function BecomeLeader(peers: set<NodeId>, n: Node): Node {
    n.(role := Leader,
       nextIndex := map p | p in peers :: LastIndex(n.log) + 1,
       matchIndex := map p | p in peers :: 0)
  }

  /** The reply half of one vote request: `term` is the term the election captured. */
  function HandleVoteReply(peers: set<NodeId>, n: Node, from: NodeId, term: Term, reply: VoteReply): Node {
    if n.role != Candidate || n.term != term then n
    else if reply.term > n.term then Persist(StepDown(n, reply.term))
    else if !reply.granted then n
    else
      var counted := n.(votes := n.votes + {from});
      if |counted.votes| >= Majority(peers) then BecomeLeader(peers, counted) else counted
  }

  // ---------- replication ----------

  /** Start: a leader appends the command and makes it durable; anyone else leaves its state alone. */
  function Propose(n: Node, command: Command): Node {
    if n.role != Leader then n
    else Persist(n.(log := n.log + [Entry(n.term, command)]))
  }

  /** The send half of replicateTo: the whole suffix from nextIndex on.
      `None` stands for the out-of-range slice the source would panic on. */
  function AppendFor(me: NodeId, n: Node, peer: NodeId): Option<AppendArgs> {
    var next := if Get(n.nextIndex, peer) < 1 then 1 else Get(n.nextIndex, peer);
    if next > |n.log| then None
    else Some(AppendArgs(n.term, me, next - 1, n.log[next - 1].term, n.log[next..], n.commitIndex))
  }

  /** First index of the run of `term` that ends at `i`; index 1 at the lowest. */
  function RunStart(log: seq<Entry>, i: nat, term: Term): nat
    requires i < |log|
  {
    if i > 1 && log[i - 1].term == term then RunStart(log, i - 1, term) else i
  }

  /** How many of `entries`, from the `i`-th on, already sit in the log after `prev`. */
  function FirstNew(log: seq<Entry>, prev: nat, entries: seq<Entry>, i: nat): (k: nat)
    requires prev < |log| && i <= |entries|
    ensures i <= k <= |entries|
    ensures prev + 1 + i <= |log| ==> prev + 1 + k <= |log|
    decreases |entries| - i
  {
    if i < |entries| && prev + 1 + i < |log| && log[prev + 1 + i].term == entries[i].term
    then FirstNew(log, prev, entries, i + 1) else i
  }

  /** Overwrite from the first entry that is missing or conflicts; keep the log when none does. */
  function Merge(log: Log, prev: nat, entries: seq<Entry>): Log
    requires prev < |log|
  {
    var k := FirstNew(log, prev, entries, 0);
    if k == |entries| then log else log[..prev + 1 + k] + entries[k..]
  }

  function Min(a: nat, b: nat): nat {
    if a < b then a else b
  }

  function AppendEntries(n: Node, a: AppendArgs): (Node, AppendReply) {
    if a.term < n.term then (n, AppendReply(n.term, false, 0))
    else
      var newTerm := a.term > n.term;
      var m := (if newTerm then StepDown(n, a.term) else n).(role := Follower);
      if a.prevIndex > LastIndex(m.log) then
        (PersistIf(newTerm, m), AppendReply(m.term, false, LastIndex(m.log) + 1))
      else if m.log[a.prevIndex].term != a.prevTerm then
        (PersistIf(newTerm, m),
         AppendReply(m.term, false, RunStart(m.log, a.prevIndex, m.log[a.prevIndex].term)))
      else
        var grew := FirstNew(m.log, a.prevIndex, a.entries, 0) < |a.entries|;
        var commit := if a.leaderCommit > m.commitIndex
                      then Min(a.leaderCommit, a.prevIndex + |a.entries|) else m.commitIndex;
        (PersistIf(newTerm || grew,
                   m.(log := Merge(m.log, a.prevIndex, a.entries), commitIndex := commit)),
         AppendReply(m.term, true, 0))
  }

  /** The peers whose matchIndex has reached `k`. */
  function Matching(peers: set<NodeId>, n: Node, k: nat): set<NodeId> {
    set p | p in peers && Get(n.matchIndex, p) >= k
  }

  predicate Committable(peers: set<NodeId>, n: Node, k: nat)
    requires k < |n.log|
  {
    n.log[k].term == n.term && 1 + |Matching(peers, n, k)| >= Majority(peers)
  }

  /** The highest committable index in (commitIndex, k], or the commitIndex when there is none. */
  function CommitPoint(peers: set<NodeId>, n: Node, k: nat): (c: nat)
    requires k < |n.log|
  {
    if k <= n.commitIndex then n.commitIndex
    else if Committable(peers, n, k) then k
    else CommitPoint(peers, n, k - 1)
  }

  function AdvanceCommit(peers: set<NodeId>, n: Node): Node {
    n.(commitIndex := CommitPoint(peers, n, LastIndex(n.log)))
  }

  /** The reply half of replicateTo, with the request it captured before sending. */
  function HandleAppendReply(peers: set<NodeId>, n: Node, peer: NodeId, a: AppendArgs, reply: AppendReply): Node {
    if n.role != Leader || n.term != a.term then n
    else if reply.term > n.term then StepDown(n, reply.term)
    else if reply.success then
      var match' := a.prevIndex + |a.entries|;
      AdvanceCommit(peers, n.(matchIndex := n.matchIndex[peer := match'],
                              nextIndex := n.nextIndex[peer := match' + 1]))
    else if reply.conflictIndex > 0 then n.(nextIndex := n.nextIndex[peer := reply.conflictIndex])
    else if Get(n.nextIndex, peer) > 1 then
      n.(nextIndex := n.nextIndex[peer := Get(n.nextIndex, peer) - 1])
    else n
  }

  // ---------- apply ----------

  predicate CanApply(n: Node) {
    n.lastApplied < n.commitIndex
  }

  /** One turn of applyLoop. `None` stands for the index panic of the source. */
  function ApplyNext(n: Node): (Node, Option<Command>) {
    var k := n.lastApplied + 1;
    (n.(lastApplied := k), if k < |n.log| then Some(n.log[k].command) else None)
  }
}
