/** How far a read walks: exactly when every walk is shorter than the spacing of checkpoints. */
module WalWalks {
  import opened Bytes
  import opened WalFormat
  import opened CheckpointIndex
  import opened WalReading
  import opened WalLog
  import opened WalSystem
  import opened WalSteps
  import opened WalProgress

  /** How many records a read of record `o` walks over. */
  function Walk(es: seq<Checkpoint>, o: nat): int {
    o - ReadStart(es, o).off
  }

  /** No two neighbours in the index, its start and the number of records included, are further apart than this. */
  ghost predicate Dense(es: seq<Checkpoint>, count: nat, stride: nat) {
    if es == [] then count <= stride
    else
      && es[0].off <= stride
      && count - es[|es| - 1].off <= stride
      && forall i, j :: 0 <= i < j < |es| && j == i + 1 ==> es[j].off - es[i].off <= stride
  }

  /** Every read of the first `count` records walks over fewer than `stride` others if and only if the index is that
      dense. */
  lemma WalksAreShortIff(es: seq<Checkpoint>, count: nat, stride: nat)
    requires StrictlyRising(es) && (forall e <- es :: e.off < count) && 0 < stride
    ensures (forall o :: 0 <= o < count ==> Walk(es, o) < stride) <==> Dense(es, count, stride)
  {
    if Dense(es, count, stride) {
      forall o | 0 <= o < count ensures Walk(es, o) < stride {
        DenseWalk(es, count, stride, o);
      }
    } else {
      var o := SparseWalk(es, count, stride);
    }
  }

  lemma DenseWalk(es: seq<Checkpoint>, count: nat, stride: nat, o: nat)
    requires Dense(es, count, stride) && o < count
    ensures Walk(es, o) < stride
  {
    var i := LastAtOrBelow(es, o);
    if 0 <= i < |es| - 1 {
      assert es[i + 1].off - es[i].off <= stride;
    }
  }

  /** The last record before a gap in the index is a long walk away. */
  lemma SparseWalk(es: seq<Checkpoint>, count: nat, stride: nat) returns (o: nat)
    requires StrictlyRising(es) && (forall e <- es :: e.off < count) && 0 < stride && !Dense(es, count, stride)
    ensures o < count && Walk(es, o) >= stride
  {
    if es == [] {
      o := count - 1;
    } else if es[0].off > stride {
      o := es[0].off - 1;
      assert es[0] in es;
      FloorAt(es, o, -1);
    } else if count - es[|es| - 1].off > stride {
      o := count - 1;
      assert es[|es| - 1] in es;
      FloorAt(es, o, |es| - 1);
    } else {
      var i, j :| 0 <= i < j < |es| && j == i + 1 && es[j].off - es[i].off > stride;
      assert es[j] in es;
      o := es[j].off - 1;
      FloorAt(es, o, i);
    }
  }

  lemma FloorAt(es: seq<Checkpoint>, o: nat, i: int)
    requires StrictlyRising(es) && -1 <= i < |es|
    requires i >= 0 ==> es[i].off <= o
    requires i + 1 < |es| ==> o < es[i + 1].off
    ensures ReadStart(es, o) == if i >= 0 then es[i] else Checkpoint(0, 0)
  {
    var k := LastAtOrBelow(es, o);
    assert forall a, b :: 0 <= a < b < |es| ==> es[a].off < es[b].off by {
      forall a, b | 0 <= a < b < |es| ensures es[a].off < es[b].off {
        assert Above(es[b], es[a]);
      }
    }
  }

  // ---------- many short sessions ----------

  /** A log just opened, with this many records and no checkpoint. */
  ghost predicate Bare(g: Config, s: Sys, count: nat) {
    && Inv(g.c, s) && |s.ps| == count && s.calls == map[]
    && s.w.store == Store([], 0) && s.w.writeSeq == 0 && !s.w.failed && |s.w.bytes| == count * HeaderSize(g.c)
  }

  /** One record and a clean restart leave one more record and, with two records or more to a checkpoint, still none. */
  lemma ShortSession(g: Config, s: Sys, count: nat) returns (mid: Sys, s': Sys)
    requires FixedWidth(g.c) && g.nth >= 2 && Bare(g, s, count) && (count + 1) * HeaderSize(g.c) < TWO_63
    ensures IsStep(g, s, DoReserve([]), mid) && IsStep(g, mid, CleanRestart, s') && Bare(g, s', count + 1)
  {
    mid := Next(g, s, DoReserve([]));
    ReservesOne(g, s, count);
    s' := Next(g, mid, CleanRestart);
    NextKeepsInv(g, mid, CleanRestart);
    ClosesBare(g, mid, count + 1);
  }

  lemma ReservesOne(g: Config, s: Sys, count: nat)
    requires FixedWidth(g.c) && Bare(g, s, count) && (count + 1) * HeaderSize(g.c) < TWO_63
    ensures var s' := Next(g, s, DoReserve([]));
            && Inv(g.c, s') && |s'.ps| == count + 1 && s'.calls == map[]
            && s'.w.store == Store([], 0) && s'.w.writeSeq == 1 && s'.w.syncedSeq == 0 && !s'.w.failed
            && |s'.w.bytes| == (count + 1) * HeaderSize(g.c)
  {
    NextKeepsInv(g, s, DoReserve([]));
    RecordParts(g.c, []);
    OneMoreHeader(count, HeaderSize(g.c));
    assert s.w.syncedSeq == 0;
    assert Reserve(g.c, s.w, []) == (Appended(s.w, Record(g.c, [])), Reserved(s.w.nextOffset, s.w.writeSeq + 1));
  }

  lemma OneMoreHeader(count: nat, hs: nat)
    ensures (count + 1) * hs == count * hs + hs
  {
  }

  lemma ClosesBare(g: Config, s: Sys, count: nat)
    requires FixedWidth(g.c) && g.nth >= 2 && Inv(g.c, s) && |s.ps| == count && s.calls == map[]
    requires s.w.store == Store([], 0) && s.w.writeSeq == 1 && s.w.syncedSeq == 0 && !s.w.failed
    requires |s.w.bytes| == count * HeaderSize(g.c)
    ensures var s' := Next(g, s, CleanRestart);
            && s'.ps == s.ps && s'.calls == map[] && s'.w.store == Store([], 0) && s'.w.writeSeq == 0
            && !s'.w.failed && s'.w.bytes == s.w.bytes
  {
    var w := Close(g.nth, s.w);
    CloseKeeps(g.c, g.nth, s.w, s.ps);
    assert |s.w.pending| == 1;
    OneIsNotNoted(g.nth, s.w);
    ReopensWhole(g, s, w);
  }

  lemma OneIsNotNoted(nth: nat, w: Wal)
    requires nth >= 2 && w.store == Store([], 0) && |w.pending| == 1 && !w.failed && w.syncedSeq < w.writeSeq
    ensures Close(nth, w).store.es == [] && Close(nth, w).bytes == w.bytes
  {
    assert NoteAll(nth, w.store, w.pending, 0) == w.store;
  }

  lemma Extend(g: Config, states: seq<Sys>, events: seq<Event>, e: Event, s: Sys)
    returns (states': seq<Sys>, events': seq<Event>)
    requires IsRun(g, states, events) && IsStep(g, states[|events|], e, s)
    ensures IsRun(g, states', events') && states' == states + [s] && events' == events + [e]
  {
    states', events' := states + [s], events + [e];
    forall k | 0 <= k < |events'| ensures IsStep(g, states'[k], events'[k], states'[k + 1]) {
      if k < |events| {
        assert IsStep(g, states[k], events[k], states[k + 1]);
      }
    }
  }

  lemma {:induction false} ShortSessions(g: Config, count: nat) returns (states: seq<Sys>, events: seq<Event>)
    requires FixedWidth(g.c) && g.nth >= 2 && count * HeaderSize(g.c) < TWO_63
    ensures IsRun(g, states, events) && Bare(g, states[|events|], count)
  {
    if count == 0 {
      states, events := [EMPTY], [];
      NothingYet(g);
    } else {
      OneMoreHeader(count - 1, HeaderSize(g.c));
      states, events := ShortSessions(g, count - 1);
      states, events := OneMoreSession(g, states, events, count - 1);
    }
  }

  lemma NothingYet(g: Config)
    requires FixedWidth(g.c)
    ensures IsRun(g, [EMPTY], []) && Bare(g, EMPTY, 0)
  {
    assert StoreOk(g.c, [], [], 0, 0);
  }

  lemma OneMoreSession(g: Config, states: seq<Sys>, events: seq<Event>, count: nat)
    returns (states': seq<Sys>, events': seq<Event>)
    requires IsRun(g, states, events) && Bare(g, states[|events|], count)
    requires g.nth >= 2 && (count + 1) * HeaderSize(g.c) < TWO_63
    ensures IsRun(g, states', events') && Bare(g, states'[|events'|], count + 1)
  {
    var mid, s := ShortSession(g, states[|events|], count);
    states', events' := Extend(g, states, events, DoReserve([]), mid);
    states', events' := Extend(g, states', events', CleanRestart, s);
  }

  /** The bound is one of the first session: since the count of records starts anew with every opening, sessions of one
      record each leave no checkpoint, and after enough of them a read walks over as many records as there are. */
  lemma LongWalkExample(g: Config, count: nat) returns (states: seq<Sys>, events: seq<Event>)
    requires FixedWidth(g.c) && 2 <= g.nth < count && count * HeaderSize(g.c) < TWO_63
    ensures IsRun(g, states, events) && |states[|events|].ps| == count
    ensures Walk(states[|events|].w.store.es, count - 1) == count - 1 >= g.nth
  {
    states, events := ShortSessions(g, count);
  }
}
