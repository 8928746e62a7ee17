/** A Raft node as the source runs it: fields updated in place under the node's lock, one method per critical
    section. Each method is proved to take the node's state to what the corresponding handler computes, so
    everything proved about runs of the handlers holds of runs of these methods. */
module RaftNode {
  import opened Options
  import opened RaftTypes
  import opened RaftHandlers

  class MemoryStorage {
    var saved: Option<PersistentState>

    constructor ()
      ensures saved == None
    {
      saved := None;
    }

    method Save(state: PersistentState)
      modifies this
      ensures saved == Some(state)
    {
      saved := Some(state);
    }

    method Load() returns (state: PersistentState, ok: bool)
      ensures ok == saved.Some?
      ensures ok ==> state == saved.value
    {
      if saved.Some? {
        return saved.value, true;
      }
      return PersistentState(0, None, []), false;
    }
  }

  /** The peers as a set; the source keeps a slice without duplicates. */
  function PeerSet(peers: seq<NodeId>): set<NodeId> {
    set p | p in peers
  }

  ghost predicate Distinct(peers: seq<NodeId>) {
    forall x, y :: 0 <= x < y < |peers| ==> peers[x] != peers[y]
  }

  lemma PeerSetGrows(peers: seq<NodeId>, x: nat)
    requires x < |peers| && Distinct(peers)
    ensures PeerSet(peers[..x + 1]) == PeerSet(peers[..x]) + {peers[x]}
    ensures peers[x] !in PeerSet(peers[..x])
  {
    assert peers[..x + 1] == peers[..x] + [peers[x]];
  }

  lemma {:induction false} PeerSetSize(peers: seq<NodeId>)
    requires Distinct(peers)
    ensures |PeerSet(peers)| == |peers|
  {
    if peers != [] {
      var x := |peers| - 1;
      assert peers[..x + 1] == peers;
      PeerSetGrows(peers, x);
      PeerSetSize(peers[..x]);
    } else {
      assert PeerSet(peers) == {};
    }
  }

  class Raft {
    const id: NodeId
    const peers: seq<NodeId>
    const storage: MemoryStorage

    var currentTerm: Term
    var votedFor: Option<NodeId>
    var log: Log
    var role: Role
    var commitIndex: nat
    var lastApplied: nat
    var nextIndex: map<NodeId, nat>
    var matchIndex: map<NodeId, nat>
    var votes: set<NodeId>

    ghost predicate Valid()
      reads this
    {
      Distinct(peers) && id !in peers
    }

    ghost function State(): Node
      reads this, storage
    {
      Node(currentTerm, votedFor, log, role, commitIndex, lastApplied, nextIndex, matchIndex, votes, storage.saved)
    }

    /** New: a follower with whatever the storage holds. */
    constructor (id: NodeId, peers: seq<NodeId>, storage: MemoryStorage)
      requires Distinct(peers) && id !in peers
      ensures Valid() && this.id == id && this.peers == peers && this.storage == storage
      ensures storage.saved == old(storage.saved)
      ensures State() == Restart(storage.saved)
    {
      this.id, this.peers, this.storage := id, peers, storage;
      currentTerm, votedFor, log := 0, None, [SENTINEL];
      role, commitIndex, lastApplied := Follower, 0, 0;
      nextIndex, matchIndex, votes := map[], map[], {};
      new;
      var state, ok := storage.Load();
      if ok {
        currentTerm := state.term;
        votedFor := state.vote;
        if |state.log| > 0 {
          log := state.log;
        }
      }
    }

    method PersistLocked()
      requires Valid()
      modifies storage
      ensures State() == Persist(old(State()))
    {
      storage.Save(PersistentState(currentTerm, votedFor, log));
    }

    method BecomeFollowerLocked(term: Term)
      requires Valid()
      modifies this
      ensures Valid() && State() == StepDown(old(State()), term)
    {
      role := Follower;
      currentTerm := term;
      votedFor := None;
    }

    method StartElection() returns (args: VoteArgs)
      requires Valid()
      modifies this, storage
      ensures Valid() && State() == RaftHandlers.StartElection(id, old(State()))
      ensures args == BallotFor(id, State())
    {
      role := Candidate;
      currentTerm := currentTerm + 1;
      votedFor := Some(id);
      votes := {id};
      PersistLocked();
      args := VoteArgs(currentTerm, id, LastIndex(log), LastTerm(log));
    }

    method RequestVote(args: VoteArgs) returns (reply: VoteReply)
      requires Valid()
      modifies this, storage
      ensures Valid() && (State(), reply) == RaftHandlers.RequestVote(old(State()), args)
    {
      var changed := false;
      if args.term > currentTerm {
        BecomeFollowerLocked(args.term);
        changed := true;
      }
      reply := VoteReply(currentTerm, false);
      if args.term < currentTerm {
        return;
      }
      var alreadyVoted := votedFor != None && votedFor != Some(args.candidate);
      if !alreadyVoted && UpToDate(log, args) {
        votedFor := Some(args.candidate);
        reply := VoteReply(currentTerm, true);
        changed := true;
      }
      if changed {
        PersistLocked();
      }
    }

    /** A candidate becomes leader; anyone else stays as it is. */
    method BecomeLeaderLocked()
      requires Valid()
      modifies this
      ensures Valid()
      ensures State() == if old(role) == Candidate then BecomeLeader(PeerSet(peers), old(State())) else old(State())
    {
      if role != Candidate {
        return;
      }
      var next := ForEachPeer(LastIndex(log) + 1);
      var match' := ForEachPeer(0);
      role, nextIndex, matchIndex := Leader, next, match';
    }

    /** The loop over the peers that gives each the same index. */
    method ForEachPeer(index: nat) returns (m: map<NodeId, nat>)
      requires Valid()
      ensures m == map p | p in PeerSet(peers) :: index
    {
      m := map[];
      for x := 0 to |peers|
        invariant m.Keys == PeerSet(peers[..x]) && forall p <- m :: m[p] == index
      {
        PeerSetGrows(peers, x);
        m := m[peers[x] := index];
      }
      assert peers[..|peers|] == peers;
    }

    /** The reply half of a vote request sent in `term`. */
    method HandleVoteReply(from: NodeId, term: Term, reply: VoteReply)
      requires Valid()
      modifies this, storage
      ensures Valid()
      ensures State() == RaftHandlers.HandleVoteReply(PeerSet(peers), old(State()), from, term, reply)
    {
      if role != Candidate || currentTerm != term {
        return;
      }
      if reply.term > currentTerm {
        BecomeFollowerLocked(reply.term);
        PersistLocked();
        return;
      }
      if !reply.granted {
        return;
      }
      votes := votes + {from};
      PeerSetSize(peers);
      if |votes| >= (|peers| + 1) / 2 + 1 {
        BecomeLeaderLocked();
      }
    }

    method Start(command: Command) returns (index: nat, term: Term, isLeader: bool)
      requires Valid()
      modifies this, storage
      ensures Valid() && State() == Propose(old(State()), command)
      ensures isLeader == (old(role) == Leader) && term == currentTerm
      ensures isLeader ==> index == LastIndex(log) && log[index] == Entry(term, command)
    {
      if role != Leader {
        return 0, currentTerm, false;
      }
      log := log + [Entry(currentTerm, command)];
      index := |log| - 1;
      PersistLocked();
      return index, currentTerm, true;
    }

    method AppendEntries(args: AppendArgs) returns (reply: AppendReply)
      requires Valid()
      modifies this, storage
      ensures Valid() && (State(), reply) == RaftHandlers.AppendEntries(old(State()), args)
    {
      reply := AppendReply(currentTerm, false, 0);
      if args.term < currentTerm {
        return;
      }
      var changed := false;
      if args.term > currentTerm {
        BecomeFollowerLocked(args.term);
        changed := true;
      }
      role := Follower;
      if args.prevIndex > LastIndex(log) {
        reply := AppendReply(currentTerm, false, LastIndex(log) + 1);
        if changed {
          PersistLocked();
        }
        return;
      }
      if log[args.prevIndex].term != args.prevTerm {
        var ci := ConflictStart(args.prevIndex);
        reply := AppendReply(currentTerm, false, ci);
        if changed {
          PersistLocked();
        }
        return;
      }
      var grew := Overwrite(args.prevIndex, args.entries);
      if args.leaderCommit > commitIndex {
        var lastNew := args.prevIndex + |args.entries|;
        commitIndex := if args.leaderCommit < lastNew then args.leaderCommit else lastNew;
      }
      if changed || grew {
        PersistLocked();
      }
      reply := AppendReply(currentTerm, true, 0);
    }

    /** Walk back over the run of the conflicting term. */
    method ConflictStart(prev: nat) returns (ci: nat)
      requires prev < |log|
      ensures ci == RunStart(log, prev, log[prev].term)
    {
      var conflictTerm := log[prev].term;
      ci := prev;
      while ci > 1 && log[ci - 1].term == conflictTerm
        invariant ci <= prev
        invariant RunStart(log, ci, conflictTerm) == RunStart(log, prev, conflictTerm)
      {
        ci := ci - 1;
      }
    }

    /** Truncate at the first real conflict and append the rest. */
    method Overwrite(prev: nat, entries: seq<Entry>) returns (grew: bool)
      requires Valid() && prev < |log|
      modifies this
      ensures Valid() && State() == old(State()).(log := Merge(old(log), prev, entries))
      ensures grew == (FirstNew(old(log), prev, entries, 0) < |entries|)
    {
      var x := 0;
      while x < |entries|
        invariant 0 <= x <= |entries| && prev + 1 + x <= |log|
        invariant FirstNew(log, prev, entries, x) == FirstNew(log, prev, entries, 0)
        invariant State() == old(State())
      {
        if prev + 1 + x <= LastIndex(log) && log[prev + 1 + x].term == entries[x].term {
          x := x + 1;
        } else {
          log := log[..prev + 1 + x] + entries[x..];
          return true;
        }
      }
      return false;
    }

    /** The send half of replicateTo; nothing to send unless this node leads. The source slices without
        checking the bound, which RaftSafety.NoOutOfRangeSlice shows is never exceeded. */
    method PrepareAppend(peer: NodeId) returns (args: Option<AppendArgs>)
      requires Valid()
      ensures args == if role == Leader then AppendFor(id, State(), peer) else None
    {
      if role != Leader {
        return None;
      }
      var ni := Get(nextIndex, peer);
      if ni < 1 {
        ni := 1;
      }
      var prevIndex := ni - 1;
      if ni > |log| {
        return None;
      }
      args := Some(AppendArgs(currentTerm, id, prevIndex, log[prevIndex].term, log[ni..], commitIndex));
    }

    method HandleAppendReply(peer: NodeId, args: AppendArgs, reply: AppendReply)
      requires Valid()
      modifies this
      ensures Valid()
      ensures State() == RaftHandlers.HandleAppendReply(PeerSet(peers), old(State()), peer, args, reply)
    {
      if role != Leader || currentTerm != args.term {
        return;
      }
      if reply.term > currentTerm {
        BecomeFollowerLocked(reply.term);
        return;
      }
      if reply.success {
        matchIndex := matchIndex[peer := args.prevIndex + |args.entries|];
        nextIndex := nextIndex[peer := matchIndex[peer] + 1];
        AdvanceCommitLocked();
        return;
      }
      if reply.conflictIndex > 0 {
        nextIndex := nextIndex[peer := reply.conflictIndex];
      } else if Get(nextIndex, peer) > 1 {
        nextIndex := nextIndex[peer := nextIndex[peer] - 1];
      }
    }

    method AdvanceCommitLocked()
      requires Valid()
      modifies this
      ensures Valid() && State() == AdvanceCommit(PeerSet(peers), old(State()))
    {
      var n := LastIndex(log);
      while n > commitIndex
        invariant 0 <= n <= LastIndex(log)
        invariant CommitPoint(PeerSet(peers), State(), n) == CommitPoint(PeerSet(peers), State(), LastIndex(log))
        invariant State() == old(State())
      {
        if log[n].term == currentTerm {
          var count := CountMatching(n);
          PeerSetSize(peers);
          if count >= (|peers| + 1) / 2 + 1 {
            commitIndex := n;
            return;
          }
        }
        n := n - 1;
      }
    }

    method CountMatching(n: nat) returns (count: nat)
      requires Valid()
      ensures count == 1 + |Matching(PeerSet(peers), State(), n)|
    {
      count := 1;
      assert Matching(PeerSet(peers[..0]), State(), n) == {};
      for x := 0 to |peers|
        invariant count == 1 + |Matching(PeerSet(peers[..x]), State(), n)|
      {
        PeerSetGrows(peers, x);
        MatchingGrows(PeerSet(peers[..x]), peers[x], State(), n);
        if Get(matchIndex, peers[x]) >= n {
          count := count + 1;
        }
      }
      assert peers[..|peers|] == peers;
    }

    /** One turn of applyLoop, past the wait for something committed but not applied. */
    method ApplyOne() returns (index: nat, command: Option<Command>)
      requires Valid() && lastApplied < commitIndex
      modifies this
      ensures Valid() && (State(), command) == ApplyNext(old(State()))
      ensures index == lastApplied
    {
      lastApplied := lastApplied + 1;
      index := lastApplied;
      command := if index < |log| then Some(log[index].command) else None;
    }
  }

  lemma MatchingGrows(peers: set<NodeId>, p: NodeId, n: Node, k: nat)
    requires p !in peers
    ensures |Matching(peers + {p}, n, k)| == |Matching(peers, n, k)| + if Get(n.matchIndex, p) >= k then 1 else 0
  {
    if Get(n.matchIndex, p) >= k {
      assert Matching(peers + {p}, n, k) == Matching(peers, n, k) + {p};
    } else {
      assert Matching(peers + {p}, n, k) == Matching(peers, n, k);
    }
  }
}
