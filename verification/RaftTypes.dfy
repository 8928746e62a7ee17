/** Entities of the Raft package: log entries, the durable trio, a node's state and the RPC messages. */
module RaftTypes {
  import opened Options

  type Term = nat

  /** Node ids are naturals; the source's reserved id None (-1) is the `None` option. */
  type NodeId = nat

  type Command = seq<bv8>

  datatype Entry = Entry(term: Term, command: Command)

  const SENTINEL: Entry := Entry(0, [])

  /** A log always holds the sentinel at index 0, so it is never empty. */
  type Log = l: seq<Entry> | 0 < |l| witness [SENTINEL]

  function LastIndex(log: Log): nat {
    |log| - 1
  }

  function LastTerm(log: Log): Term {
    log[LastIndex(log)].term
  }

  datatype Role = Follower | Candidate | Leader

  /** What Storage.Save writes. A decoded state may hold an empty log. */
  datatype PersistentState = PersistentState(term: Term, vote: Option<NodeId>, log: seq<Entry>)

  /** `disk` is what the storage holds; everything else is lost in a crash.
      `votes` are the peers (and self) counted by the election running in the current term. */
  datatype Node = Node(
    term: Term,
    vote: Option<NodeId>,
    log: Log,
    role: Role,
    commitIndex: nat,
    lastApplied: nat,
    nextIndex: map<NodeId, nat>,
    matchIndex: map<NodeId, nat>,
    votes: set<NodeId>,
    disk: Option<PersistentState>)

  datatype VoteArgs = VoteArgs(term: Term, candidate: NodeId, lastLogIndex: nat, lastLogTerm: Term)

  datatype VoteReply = VoteReply(term: Term, granted: bool)

  datatype AppendArgs = AppendArgs(
    term: Term, leader: NodeId, prevIndex: nat, prevTerm: Term, entries: seq<Entry>, leaderCommit: nat)

  datatype AppendReply = AppendReply(term: Term, success: bool, conflictIndex: nat)

  /** A map read with Go's zero value for a missing key. */
  function Get(m: map<NodeId, nat>, k: NodeId): nat {
    if k in m then m[k] else 0
  }

  /** The logs `a` and `b` both have at least `k` entries and hold the same first `k`. */
  ghost predicate Agree(a: seq<Entry>, b: seq<Entry>, k: nat) {
    && k <= |a| && k <= |b|
    && forall j :: 0 <= j < k ==> a[j] == b[j]
  }
}
