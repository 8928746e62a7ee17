/** The guarantees of one log file over every run: any interleaving of writers, fsyncs that succeed or fail,
    crashes that keep any prefix containing the fsynced bytes, and restarts. */
module WalSafety {
  import opened Bytes
  import opened WalFormat
  import opened WalRecovery
  import opened CheckpointIndex
  import opened WalReading
  import opened WalLog
  import opened WalSystem
  import opened WalSteps

  lemma {:induction false} RunHasInv(g: Config, states: seq<Sys>, events: seq<Event>, k: nat)
    requires IsRun(g, states, events) && k < |states|
    ensures Inv(g.c, states[k])
  {
    if k == 0 {
      assert StoreOk(g.c, [], [], 0, 0);
    } else {
      RunHasInv(g, states, events, k - 1);
      RunStep(g, states, events, k - 1);
      NextKeepsInv(g, states[k - 1], events[k - 1]);
    }
  }

  // ---------- group commit ----------

  /** At most one fsync is in flight. */
  lemma OneSyncInFlight(g: Config, states: seq<Sys>, events: seq<Event>, k: nat, t: ThreadId, u: ThreadId)
    requires IsRun(g, states, events) && k < |states|
    requires t in states[k].calls && states[k].calls[t].Syncing?
    requires u in states[k].calls && states[k].calls[u].Syncing?
    ensures t == u
  {
    RunHasInv(g, states, events, k);
  }

  /** A waiter always has an fsync in flight to wake it. */
  lemma NoLostWakeup(g: Config, states: seq<Sys>, events: seq<Event>, k: nat, t: ThreadId)
    requires IsRun(g, states, events) && k < |states|
    requires t in states[k].calls && states[k].calls[t].Waiting?
    ensures exists u :: u in states[k].calls && states[k].calls[u].Syncing?
  {
    RunHasInv(g, states, events, k);
    assert CallOk(g.c, states[k], states[k].calls[t]);
  }

  /** The waiting checkpoints are exactly the ascending run of unsynced records, with their true positions. */
  lemma PendingIsUnsyncedRun(g: Config, states: seq<Sys>, events: seq<Event>, k: nat, i: nat)
    requires IsRun(g, states, events) && k < |states|
    ensures |states[k].w.pending| == states[k].w.writeSeq - states[k].w.syncedSeq
    ensures i < |states[k].w.pending| ==>
              var s, p := states[k], states[k].w.pending[i];
              && p.ticket == s.w.syncedSeq + 1 + i
              && p.off == Base(s.w) + s.w.syncedSeq + i < |s.ps|
              && p.pos == Start(g.c, s.ps, p.off)
  {
    RunHasInv(g, states, events, k);
  }

  /** Commit returns without error only when its record lies in the fsynced bytes. */
  lemma CommitMeansDurable(g: Config, states: seq<Sys>, events: seq<Event>, k: nat, t: ThreadId)
    requires IsRun(g, states, events) && k < |states|
    requires t in states[k].calls && states[k].calls[t].Returned? && states[k].calls[t].ok
    ensures var s := states[k];
            0 < Base(s.w) + s.calls[t].ticket <= |s.ps| && Start(g.c, s.ps, Base(s.w) + s.calls[t].ticket) <= s.w.durable
  {
    var s := states[k];
    RunHasInv(g, states, events, k);
    assert CallOk(g.c, s, s.calls[t]);
    StartMonotone(g.c, s.ps, Base(s.w) + s.calls[t].ticket, Base(s.w) + s.w.syncedSeq);
  }

  /** Once two fsyncs have completed since a call began, its record is synced or the error is set. */
  lemma TwoSyncsSuffice(g: Config, states: seq<Sys>, events: seq<Event>, k: nat, t: ThreadId)
    requires IsRun(g, states, events) && k < |states|
    requires t in states[k].calls && !states[k].calls[t].Returned?
    requires states[k].syncs >= states[k].calls[t].entered + 2
    ensures states[k].w.failed || states[k].calls[t].ticket <= states[k].w.syncedSeq
  {
    RunHasInv(g, states, events, k);
    assert CallOk(g.c, states[k], states[k].calls[t]);
  }

  // ---------- crash recovery ----------

  /** From any reachable state, whatever a crash leaves, opening succeeds with exactly the whole records in the
      surviving bytes; the last checkpoint passes the guard; and scanning from it or from byte 0 is the same. */
  lemma RecoveryIsExact(g: Config, states: seq<Sys>, events: seq<Event>, k: nat,
                        length: nat, durable: nat, index: seq<byte>) returns (n: nat)
    requires IsRun(g, states, events) && k < |states|
    requires Enabled(states[k], Crash(length, durable, index))
    ensures var s, bytes := states[k], states[k].w.bytes[..length];
            && IsWhole(g.c, s.ps, length, n)
            && Open(g.c, bytes, durable, index) == Opened(Survivors(g.c, s.ps, n, Load(index), durable))
            && Scan(HeaderSize(g.c), bytes, 0, 0) == Head(n, Start(g.c, s.ps, n))
            && (Load(index) != [] ==>
                  var last := Load(index)[|Load(index)| - 1];
                  && Trusted(g.c, bytes, last) && Correct(g.c, s.ps, last) && last.pos <= |bytes|
                  && Scan(HeaderSize(g.c), bytes, last.pos, last.off) == Scan(HeaderSize(g.c), bytes, 0, 0))
  {
    var s, bytes := states[k], states[k].w.bytes[..length];
    RunHasInv(g, states, events, k);
    n := OpenRecovers(g.c, s.w, s.ps, length, durable, index);
    ScansAgree(g.c, bytes, s.ps, Load(index), s.w.durable, n);
  }

  lemma ScansAgree(c: Checksum, bytes: seq<byte>, ps: seq<Payload>, es: seq<Checkpoint>, durable: nat, n: nat)
    requires FixedWidth(c) && bytes <= Frame(c, ps) && IsWhole(c, ps, |bytes|, n)
    requires StoreOk(c, ps, es, |ps|, durable) && durable <= |bytes| < TWO_63
    ensures Scan(HeaderSize(c), bytes, 0, 0) == Head(n, Start(c, ps, n))
    ensures es != [] ==>
              var last := es[|es| - 1];
              && Trusted(c, bytes, last) && Correct(c, ps, last) && last.pos <= |bytes|
              && Scan(HeaderSize(c), bytes, last.pos, last.off) == Scan(HeaderSize(c), bytes, 0, 0)
  {
    assert ps[..0] == [];
    var m := ScanFindsWhole(c, bytes, ps, 0);
    WholeIsUnique(c, ps, |bytes|, n, m);
    if es != [] {
      var last := es[|es| - 1];
      assert last in es;
      StartMonotone(c, ps, last.off, last.off + 1);
      TailScanIsFullScan(c, bytes, ps, last.off);
    }
  }

  /** Log first, index after: in every reachable state checkpoints ascend, and every one names the true start of a
      record that lies whole in the fsynced bytes. */
  lemma WriteAhead(g: Config, states: seq<Sys>, events: seq<Event>, k: nat, e: Checkpoint)
    requires IsRun(g, states, events) && k < |states| && e in states[k].w.store.es
    ensures StrictlyRising(states[k].w.store.es)
    ensures Correct(g.c, states[k].ps, e) && Start(g.c, states[k].ps, e.off + 1) <= states[k].w.durable
  {
    RunHasInv(g, states, events, k);
  }

  // ---------- acknowledged records ----------

  /** What was acknowledged stays acknowledged, with the same payload. */
  ghost predicate Keeps(s: Sys, s': Sys) {
    && s.acked <= s'.acked
    && forall o <- s.acked :: o < |s.ps| && o < |s'.ps| && s'.ps[o] == s.ps[o]
  }

  lemma NextKeepsAcked(g: Config, s: Sys, e: Event)
    requires FixedWidth(g.c) && Inv(g.c, s) && Enabled(s, e)
    ensures Keeps(s, Next(g, s, e))
  {
    NextKeepsInv(g, s, e);
    var s' := Next(g, s, e);
    assert s.acked <= s'.acked;
    assert s'.ps <= s.ps || s.ps <= s'.ps;
  }

  lemma {:induction false} RunKeepsAcked(g: Config, states: seq<Sys>, events: seq<Event>, j: nat, k: nat)
    requires IsRun(g, states, events) && j <= k < |states|
    ensures Keeps(states[j], states[k])
    decreases k
  {
    if j == k {
      RunHasInv(g, states, events, j);
    } else {
      RunKeepsAcked(g, states, events, j, k - 1);
      StepKeepsAcked(g, states, events, k - 1);
      KeepsIsTransitive(states[j], states[k - 1], states[k]);
    }
  }

  lemma StepKeepsAcked(g: Config, states: seq<Sys>, events: seq<Event>, k: nat)
    requires IsRun(g, states, events) && k < |events|
    ensures Keeps(states[k], states[k + 1])
  {
    RunHasInv(g, states, events, k);
    RunStep(g, states, events, k);
    NextKeepsAcked(g, states[k], events[k]);
  }

  lemma KeepsIsTransitive(a: Sys, b: Sys, c: Sys)
    requires Keeps(a, b) && Keeps(b, c)
    ensures Keeps(a, c)
  {
  }

  /** A record whose Commit returned without error is read back, with its payload, at its offset, at every later
      moment of the run, after any number of crashes and restarts. */
  lemma AcknowledgedReadsBack(g: Config, states: seq<Sys>, events: seq<Event>, j: nat, t: ThreadId, k: nat)
    requires IsRun(g, states, events) && j <= k < |states|
    requires t in states[j].calls && states[j].calls[t].Returned? && states[j].calls[t].ok
    ensures var o := Base(states[j].w) + states[j].calls[t].ticket - 1;
            && 0 <= o < |states[j].ps|
            && ReadAt(g.c, states[k].w.bytes, states[k].w.store.es, o) == Data(states[j].ps[o])
  {
    var o := Base(states[j].w) + states[j].calls[t].ticket - 1;
    RunHasInv(g, states, events, j);
    RunHasInv(g, states, events, k);
    assert CallOk(g.c, states[j], states[j].calls[t]);
    RunKeepsAcked(g, states, events, j, k);
    assert o in states[j].acked;
    SparseReadIsLookup(g.c, states[k].ps, states[k].w.store.es, o);
  }

  /** In every reachable state a read by offset is a lookup in the list of records. */
  lemma ReadIsLookup(g: Config, states: seq<Sys>, events: seq<Event>, k: nat, o: nat)
    requires IsRun(g, states, events) && k < |states|
    ensures ReadAt(g.c, states[k].w.bytes, states[k].w.store.es, o) ==
            if o < |states[k].ps| then Data(states[k].ps[o]) else Eof
  {
    RunHasInv(g, states, events, k);
    SparseReadIsLookup(g.c, states[k].ps, states[k].w.store.es, o);
  }

  /** The offset and ticket Reserve hands out belong together: the record is the next one, and committing the
      ticket is what makes that offset acknowledged. */
  lemma ReserveHandsOutNext(g: Config, states: seq<Sys>, events: seq<Event>, k: nat, data: seq<byte>)
    requires IsRun(g, states, events) && k < |events| && events[k] == DoReserve(data)
    requires Reserve(g.c, states[k].w, data).1.Reserved?
    ensures var r := Reserve(g.c, states[k].w, data).1;
            && r.offset == |states[k].ps| && states[k + 1].ps == states[k].ps + [data]
            && r.offset == Base(states[k + 1].w) + r.ticket - 1
  {
    RunHasInv(g, states, events, k);
    RunStep(g, states, events, k);
  }

  // ---------- short walks in the first session ----------

  ghost predicate FirstSession(events: seq<Event>, k: nat) {
    k <= |events| && forall i :: 0 <= i < k ==> !events[i].Crash? && !events[i].CleanRestart?
  }

  ghost predicate Spaced(nth: nat, s: Store, count: nat) {
    EvenlySpaced(nth, s.es, s.n, count)
  }

  /** Consecutive offsets from `b` on, all within 64 bits. */
  ghost predicate SmallRun(pending: seq<Pending>, b: nat) {
    forall i :: 0 <= i < |pending| ==> pending[i].off == b + i && b + i < TWO_63 && pending[i].pos < TWO_63
  }

  lemma {:induction false} NoteAllGrows(nth: nat, s: Store, pending: seq<Pending>, k: nat)
    requires k <= |pending|
    ensures |s.es| <= |NoteAll(nth, s, pending, k).es|
  {
    if k > 0 {
      NoteAllGrows(nth, s, pending, k - 1);
    }
  }

  lemma {:induction false} NoteAllKeepsSpacing(nth: nat, s: Store, pending: seq<Pending>, b: nat, k: nat)
    requires Spaced(nth, s, b) && k <= |pending| && SmallRun(pending, b)
    requires Roomy(nth, NoteAll(nth, s, pending, k).es, b + k)
    ensures Spaced(nth, NoteAll(nth, s, pending, k), b + k)
  {
    if k > 0 {
      var init, last := NoteAll(nth, s, pending, k - 1), NoteAll(nth, s, pending, k);
      assert last == Note(nth, init, b + k - 1, pending[k - 1].pos);
      RoomyBefore(nth, init, b + k - 1, pending[k - 1].pos);
      NoteAllKeepsSpacing(nth, s, pending, b, k - 1);
      OneMoreSpaced(nth, init, last, b + k - 1, pending[k - 1].pos);
    }
  }

  lemma RoomyBefore(nth: nat, s: Store, count: nat, pos: nat)
    requires Roomy(nth, Note(nth, s, count, pos).es, count + 1)
    ensures Roomy(nth, s.es, count)
  {
  }

  lemma OneMoreSpaced(nth: nat, s: Store, s': Store, count: nat, pos: nat)
    requires s' == Note(nth, s, count, pos) && Spaced(nth, s, count) && count < TWO_63 && pos < TWO_63
    requires Roomy(nth, s'.es, count + 1)
    ensures Spaced(nth, s', count + 1)
  {
    NoteKeepsSpacing(nth, s, count, pos);
  }

  lemma PendingIsSmall(c: Checksum, w: Wal, ps: seq<Payload>, i: nat)
    requires FixedWidth(c) && WalInv(c, w, ps) && i < |w.pending|
    ensures w.pending[i].off == Base(w) + w.syncedSeq + i < TWO_63 && w.pending[i].pos < TWO_63
  {
    StartIsLarge(c, ps, Base(w) + w.syncedSeq + i);
    FramePrefix(c, ps, Base(w) + w.syncedSeq + i);
  }

  lemma QueueIsSmall(c: Checksum, w: Wal, ps: seq<Payload>)
    requires FixedWidth(c) && WalInv(c, w, ps) && Base(w) == 0
    ensures SmallRun(w.pending, w.syncedSeq)
  {
    forall i | 0 <= i < |w.pending|
      ensures w.pending[i].off == w.syncedSeq + i && w.syncedSeq + i < TWO_63 && w.pending[i].pos < TWO_63
    {
      PendingIsSmall(c, w, ps, i);
    }
  }

  lemma SyncKeepsSpacing(c: Checksum, nth: nat, w: Wal, ps: seq<Payload>, target: nat, flushed: nat)
    requires FixedWidth(c) && WalInv(c, w, ps) && w.syncedSeq <= target <= w.writeSeq && Base(w) == 0
    requires Spaced(nth, w.store, w.syncedSeq)
    requires Roomy(nth, SyncDone(nth, w, target, flushed, true).store.es, target)
    ensures Spaced(nth, SyncDone(nth, w, target, flushed, true).store, target)
  {
    SyncDoneIsSynced(c, nth, w, ps, target, flushed);
    QueueIsSmall(c, w, ps);
    NoteAllKeepsSpacing(nth, w.store, w.pending, w.syncedSeq, target - w.syncedSeq);
  }

  ghost predicate SpacedSys(g: Config, s: Sys) {
    Base(s.w) == 0 && Spaced(g.nth, s.w.store, s.w.syncedSeq)
  }

  ghost predicate RoomySys(g: Config, s: Sys) {
    Roomy(g.nth, s.w.store.es, s.w.syncedSeq)
  }

  lemma {:induction false} SpacedInFirstSession(g: Config, states: seq<Sys>, events: seq<Event>, k: nat)
    requires IsRun(g, states, events) && FirstSession(events, k) && RoomySys(g, states[k])
    ensures SpacedSys(g, states[k])
  {
    if k == 0 {
      SpacedAtStart(g);
    } else {
      assert FirstSession(events, k - 1) && !events[k - 1].Crash? && !events[k - 1].CleanRestart?;
      StepKeepsRoomy(g, states, events, k - 1);
      SpacedInFirstSession(g, states, events, k - 1);
      SpacedStep(g, states, events, k - 1);
    }
  }

  lemma SpacedAtStart(g: Config)
    ensures SpacedSys(g, EMPTY)
  {
    assert Spaced(g.nth, Store([], 0), 0);
  }

  /** An index with room now had room before. */
  lemma StepKeepsRoomy(g: Config, states: seq<Sys>, events: seq<Event>, k: nat)
    requires IsRun(g, states, events) && k < |events| && !events[k].Crash? && !events[k].CleanRestart?
    requires RoomySys(g, states[k + 1])
    ensures RoomySys(g, states[k])
  {
    RunStep(g, states, events, k);
    StepGrowsStore(g, states[k], events[k]);
  }

  lemma StepGrowsStore(g: Config, s: Sys, e: Event)
    requires Enabled(s, e) && !e.Crash? && !e.CleanRestart?
    ensures |s.w.store.es| <= |Next(g, s, e).w.store.es| && s.w.syncedSeq <= Next(g, s, e).w.syncedSeq
  {
    if e.FinishSync? && e.ok {
      NoteAllGrows(g.nth, s.w.store, s.w.pending, Covered(s.w.pending, s.calls[e.t].target));
    }
  }

  lemma SpacedStep(g: Config, states: seq<Sys>, events: seq<Event>, k: nat)
    requires IsRun(g, states, events) && k < |events| && !events[k].Crash? && !events[k].CleanRestart?
    requires SpacedSys(g, states[k]) && RoomySys(g, states[k + 1])
    ensures SpacedSys(g, states[k + 1])
  {
    RunHasInv(g, states, events, k);
    RunStep(g, states, events, k);
    StepKeepsSpacing(g, states[k], events[k]);
  }

  lemma StepKeepsSpacing(g: Config, s: Sys, e: Event)
    requires FixedWidth(g.c) && Inv(g.c, s) && Enabled(s, e) && !e.Crash? && !e.CleanRestart?
    requires SpacedSys(g, s) && RoomySys(g, Next(g, s, e))
    ensures SpacedSys(g, Next(g, s, e))
  {
    if e.FinishSync? && e.ok {
      var call := s.calls[e.t];
      assert LeaderOk(g.c, s, call);
      SyncKeepsSpacing(g.c, g.nth, s.w, s.ps, call.target, call.flushed);
    }
  }

  lemma FewRecords(g: Config, states: seq<Sys>, events: seq<Event>, k: nat)
    requires IsRun(g, states, events) && k < |states|
    ensures 4 * states[k].w.syncedSeq < TWO_63
  {
    var s := states[k];
    RunHasInv(g, states, events, k);
    StartIsLarge(g.c, s.ps, |s.ps|);
    assert s.ps[..|s.ps|] == s.ps;
  }

  /** In a log's first session a read of any synced record walks over fewer than `nth` others. With fewer than four
      records to a checkpoint the index file could fill up first; until then the same holds. */
  lemma ShortWalks(g: Config, states: seq<Sys>, events: seq<Event>, k: nat, o: nat)
    requires IsRun(g, states, events) && FirstSession(events, k) && o < states[k].w.syncedSeq
    requires g.nth >= 4 || HasRoom(states[k].w.store.es)
    ensures var start := ReadStart(states[k].w.store.es, o).off;
            start <= o < start + Stride(g.nth)
  {
    FewRecords(g, states, events, k);
    SpacedInFirstSession(g, states, events, k);
    var w := states[k].w;
    WalkIsShort(g.nth, w.store.es, w.store.n, w.syncedSeq, o);
  }
}
