/** Where the entries of the logs come from: every one of them, and so every command ever delivered, was proposed by a
    client to the leader of the entry's term; and a proposal that reaches a log anywhere is the entry proposed. */
module RaftOrigins {
  import opened Options
  import opened RaftTypes
  import opened RaftHandlers
  import opened RaftCluster
  import opened RaftInvariant
  import opened RaftSafety

  /** Event `j` is a client handing `e.command` to a leader, which takes it in at index `x` as `e`. */
  ghost predicate Proposes(states: seq<Cluster>, events: seq<Event>, j: nat, x: nat, e: Entry)
    requires IsRun(states, events)
  {
    && j < |events| && events[j].ClientStart? && events[j].i in states[j].nodes && events[j].i in states[j + 1].nodes
    && var n := states[j].nodes[events[j].i];
       && n.role == Leader && n.term == e.term && |n.log| == x && events[j].command == e.command
       && states[j + 1].nodes[events[j].i].log == n.log + [e]
  }

  ghost predicate Proposed(states: seq<Cluster>, events: seq<Event>, k: nat, x: nat, e: Entry)
    requires IsRun(states, events)
  {
    exists j :: 0 <= j < k && Proposes(states, events, j, x, e)
  }

  /** How one event changes the log of the leader of a term. */
  ghost predicate TermStep(s: Cluster, e: Event, h': History, t: Term)
    requires Enabled(s, e) && t in h'.terms
  {
    || (t in s.h.terms && h'.terms[t].start == s.h.terms[t].start && h'.terms[t].log == s.h.terms[t].log)
    || h'.terms[t].start == h'.terms[t].log
    || (&& t in s.h.terms && h'.terms[t].start == s.h.terms[t].start
        && e.ClientStart? && s.nodes[e.i].role == Leader && s.nodes[e.i].term == t
        && h'.terms[t].log == s.nodes[e.i].log + [Entry(t, e.command)]
        && EffectOf(s, e).node.log == h'.terms[t].log)
  }

  lemma TermSteps(s: Cluster, e: Event, t: Term)
    requires Enabled(s, e) && t in EffectOf(s, e).h.terms
    ensures TermStep(s, e, EffectOf(s, e).h, t)
  {
  }

  lemma LeaderLog(states: seq<Cluster>, events: seq<Event>, k: nat, i: NodeId)
    requires IsRun(states, events) && k < |states| && i in states[k].nodes && states[k].nodes[i].role == Leader
    ensures states[k].nodes[i].term in states[k].h.terms
    ensures states[k].h.terms[states[k].nodes[i].term].log == states[k].nodes[i].log
  {
    ReachableNode(states, events, k, i);
  }

  /** Every entry a leader adds to its log in its term was proposed to it. */
  lemma {:induction false} LeaderEntryProposed(states: seq<Cluster>, events: seq<Event>, k: nat, t: Term, x: nat)
    requires IsRun(states, events) && k < |states|
    requires t in states[k].h.terms && |states[k].h.terms[t].start| <= x < |states[k].h.terms[t].log|
    ensures Proposed(states, events, k, x, states[k].h.terms[t].log[x])
  {
    if k > 0 {
      var s, e, entry := states[k - 1], events[k - 1], states[k].h.terms[t].log[x];
      assert Enabled(s, e) && states[k] == Next(s, e);
      TermSteps(s, e, t);
      if states[k].h.terms[t].log == s.h.terms[t].log {
        LeaderEntryProposed(states, events, k - 1, t, x);
      } else {
        LeaderLog(states, events, k - 1, e.i);
        if x < |s.h.terms[t].log| {
          LeaderEntryProposed(states, events, k - 1, t, x);
        } else {
          assert Proposes(states, events, k - 1, x, entry);
        }
      }
    }
  }

  /** Every entry of every log but the sentinel was proposed, by an earlier event, to the leader of its term, which put
      it at the same index. */
  lemma EveryEntryWasProposed(states: seq<Cluster>, events: seq<Event>, k: nat, i: NodeId, x: nat)
    requires IsRun(states, events) && k < |states| && i in states[k].nodes && 0 < x < |states[k].nodes[i].log|
    ensures Proposed(states, events, k, x, states[k].nodes[i].log[x])
  {
    var h, log := states[k].h, states[k].nodes[i].log;
    var t := log[x].term;
    ReachableNode(states, events, k, i);
    assert EntryBacked(h.terms, log, x);
    assert ElectionOk(states[k].servers, h, t);
    assert h.terms[t].log[x] == log[x];
    LeaderEntryProposed(states, events, k, t, x);
  }

  /** Every command delivered was proposed to a leader before, and taken in at the index of the delivery: commands are
      not made up, and one proposal is delivered at one index only. */
  lemma DeliveredWasProposed(states: seq<Cluster>, events: seq<Event>, k: nat)
    requires IsRun(states, events) && k < |events| && events[k].ApplyOne?
    ensures Enabled(states[k], events[k])
    ensures exists e :: Proposed(states, events, k, DeliveredAt(states[k], events[k]), e)
                        && Delivered(states[k], events[k]) == Some(e.command)
  {
    var i := events[k].i;
    assert Enabled(states[k], events[k]);
    ReachableNode(states, events, k, i);
    var x := DeliveredAt(states[k], events[k]);
    EveryEntryWasProposed(states, events, k, i, x);
    assert Delivered(states[k], events[k]) == Some(states[k].nodes[i].log[x].command);
  }

  /** The index and term a leader answers a client with belong to the client's command for good: any log, at any time,
      that has an entry of that term at that index has the command there. */
  lemma ProposalIsKept(states: seq<Cluster>, events: seq<Event>, j: nat, x: nat, e: Entry, k: nat, i: NodeId)
    requires IsRun(states, events) && Proposes(states, events, j, x, e)
    requires k < |states| && i in states[k].nodes && x < |states[k].nodes[i].log|
    requires states[k].nodes[i].log[x].term == e.term
    ensures states[k].nodes[i].log[x] == e
  {
    LogMatchingInRuns(states, events, j + 1, events[j].i, k, i, x);
  }

  /** A client's command to a leader is taken in past the end of its log, in memory and on disk, and to anyone else
      not at all. */
  lemma StartProposes(states: seq<Cluster>, events: seq<Event>, k: nat)
    requires IsRun(states, events) && k < |events| && events[k].ClientStart?
    ensures Enabled(states[k], events[k]) && events[k].i in states[k + 1].nodes
    ensures var i := events[k].i;
            var n, n' := states[k].nodes[i], states[k + 1].nodes[i];
            if n.role == Leader then
              && Proposes(states, events, k, |n.log|, Entry(n.term, events[k].command))
              && Restart(n'.disk).log == n'.log && Restart(n'.disk).term == n.term && n'.role == Leader
            else n' == n
  {
    assert Enabled(states[k], events[k]) && states[k + 1] == Next(states[k], events[k]);
  }
}
