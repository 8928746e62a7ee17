/** What the log's operations achieve over every run, where safety alone would allow doing less. */
module WalProgress {
  import opened Bytes
  import opened WalFormat
  import opened WalRecovery
  import opened CheckpointIndex
  import opened WalReading
  import opened WalLog
  import opened WalSystem
  import opened WalSteps
  import opened WalSafety

  // ---------- Reserve ----------

  /** Reserve refuses a record exactly when it is over the limit or would take the file past the largest position; a
      refusal leaves the log as it was. */
  lemma ReserveRefusesIff(g: Config, states: seq<Sys>, events: seq<Event>, k: nat, data: seq<byte>)
    requires IsRun(g, states, events) && k < |events| && events[k] == DoReserve(data)
    ensures var refused := |data| > MAX_RECORD || |states[k].w.bytes| + HeaderSize(g.c) + |data| >= TWO_63;
            && Reserve(g.c, states[k].w, data).1.Reserved? == !refused
            && (refused ==> states[k + 1] == states[k])
  {
    RunStep(g, states, events, k);
    if |data| <= MAX_RECORD {
      RecordParts(g.c, data);
    }
  }

  // ---------- group commit ----------

  /** How a turn of a call of Commit ends: with the error if it is set, without if the ticket is synced, waiting if some
      call runs the fsync, and otherwise running the fsync itself, for all that is in the file. */
  lemma TurnOutcome(g: Config, states: seq<Sys>, events: seq<Event>, k: nat, t: ThreadId)
    requires IsRun(g, states, events) && k < |events| && events[k] == TakeTurn(t)
    ensures t in states[k].calls && states[k].calls[t].Trying? && t in states[k + 1].calls
    ensures var s, call := states[k], states[k].calls[t];
            states[k + 1].calls[t] ==
            if s.w.failed then Returned(call.ticket, false)
            else if call.ticket <= s.w.syncedSeq then Returned(call.ticket, true)
            else if exists u :: u in s.calls && s.calls[u].Syncing? then Waiting(call.ticket, call.entered)
            else Syncing(call.ticket, call.entered, s.w.writeSeq, |s.w.bytes|)
  {
    RunHasInv(g, states, events, k);
    RunStep(g, states, events, k);
    var s := states[k];
    if u :| u in s.calls && s.calls[u].Syncing? {
      assert LeaderOk(g.c, s, s.calls[u]);
    }
  }

  ghost predicate SameSession(events: seq<Event>, j: nat, k: nat) {
    j <= k <= |events| && forall i :: j <= i < k ==> !events[i].Crash? && !events[i].CleanRestart?
  }

  /** A failed fsync is for good: until the log is reopened no further offset is acknowledged, no further fsync or
      checkpoint happens, and every call returns the error. */
  lemma {:induction false} FailureSticks(g: Config, states: seq<Sys>, events: seq<Event>, j: nat, k: nat)
    requires IsRun(g, states, events) && SameSession(events, j, k) && states[j].w.failed
    ensures states[k].w.failed && states[k].acked == states[j].acked && states[k].syncs == states[j].syncs
    ensures states[k].w.durable == states[j].w.durable && states[k].w.store == states[j].w.store
    decreases k
  {
    if j < k {
      FailureSticks(g, states, events, j, k - 1);
      RunHasInv(g, states, events, k - 1);
      RunStep(g, states, events, k - 1);
      FailedStep(g, states[k - 1], events[k - 1]);
    }
  }

  lemma NobodySyncs(c: Checksum, s: Sys)
    requires Inv(c, s) && s.w.failed
    ensures forall t <- s.calls :: !s.calls[t].Syncing?
  {
    forall t <- s.calls ensures !s.calls[t].Syncing? {
      assert LeaderOk(c, s, s.calls[t]);
    }
  }

  lemma FailedStep(g: Config, s: Sys, e: Event)
    requires Inv(g.c, s) && Enabled(s, e) && !e.Crash? && !e.CleanRestart? && s.w.failed
    ensures var s' := Next(g, s, e);
            && s'.w.failed && s'.acked == s.acked && s'.syncs == s.syncs
            && s'.w.durable == s.w.durable && s'.w.store == s.w.store
  {
    NobodySyncs(g.c, s);
  }

  // ---------- recovery ----------

  /** Recovery reads no more than the tail: after any crash the scan starts at the last checkpoint that loads. */
  lemma RecoveryScansTail(g: Config, states: seq<Sys>, events: seq<Event>, k: nat, length: nat, durable: nat,
                          index: seq<byte>)
    requires IsRun(g, states, events) && k < |states| && Enabled(states[k], Crash(length, durable, index))
    ensures ScanStart(g.c, states[k].w.bytes[..length], Load(index)) ==
            if Load(index) == [] then (0, 0) else (Load(index)[|Load(index)| - 1].off, Load(index)[|Load(index)| - 1].pos)
  {
    var n := RecoveryIsExact(g, states, events, k, length, durable, index);
    FloorOfAll(Load(index));
  }

  /** On arbitrary bytes, a last checkpoint behind which no record header fits is not trusted: the log opens as it would
      without an index, over all of the file. */
  lemma CheckpointPastEnd(c: Checksum, bytes: seq<byte>, durable: nat, index: seq<byte>)
    requires Load(index) != []
    requires var last := Load(index)[|Load(index)| - 1]; |bytes| < last.pos + HeaderSize(c) < TWO_63
    ensures Open(c, bytes, durable, index) ==
            match Open(c, bytes, durable, [])
            case OpenFailed => OpenFailed
            case Opened(w) => Opened(w.(store := Store(Load(index), 0)))
  {
    FloorOfAll(Load(index));
    FloorOfAll(Load([]));
    assert Load([]) == [];
  }

  /** One so near the largest file position that adding the header size wraps around is trusted, and opening fails. */
  lemma CheckpointAtLimit(c: Checksum, bytes: seq<byte>, durable: nat, index: seq<byte>)
    requires Load(index) != [] && HeaderSize(c) <= TWO_63
    requires var last := Load(index)[|Load(index)| - 1]; |bytes| < last.pos && TWO_63 <= last.pos + HeaderSize(c)
    ensures Open(c, bytes, durable, index) == OpenFailed
  {
    FloorOfAll(Load(index));
  }

  // ---------- Close ----------

  /** A clean restart loses nothing: every record, acknowledged or not, is there again, and the checkpoints too; unless
      an fsync has failed, all of it is durable and checkpoints are noted for every record. */
  lemma CleanRestartKeepsAll(g: Config, states: seq<Sys>, events: seq<Event>, k: nat)
    requires IsRun(g, states, events) && k < |events| && events[k] == CleanRestart
    ensures var s, s', w := states[k], states[k + 1], Close(g.nth, states[k].w);
            && s'.ps == s.ps && s'.w.bytes == s.w.bytes && s'.w.nextOffset == s.w.nextOffset && s'.acked == s.acked
            && s'.w.store == Store(w.store.es, 0)
            && w.store == (if s.w.failed then s.w.store else NoteAll(g.nth, s.w.store, s.w.pending, |s.w.pending|))
            && (!s.w.failed && s.w.pending != [] ==> s'.w.durable == |s'.w.bytes|)
  {
    var s, w := states[k], Close(g.nth, states[k].w);
    RunHasInv(g, states, events, k);
    RunStep(g, states, events, k);
    CloseKeeps(g.c, g.nth, s.w, s.ps);
    ReopensWhole(g, s, w);
  }

  lemma ReopensWhole(g: Config, s: Sys, w: Wal)
    requires FixedWidth(g.c) && WalInv(g.c, w, s.ps)
    ensures var s' := Reopened(g, s, w.bytes, w.durable, EncodeAll(w.store.es));
            && s'.ps == s.ps && s'.w.bytes == w.bytes && s'.w.nextOffset == |s.ps| && s'.acked == s.acked
            && s'.w.store == Store(w.store.es, 0) && s'.w.durable == w.durable
            && s'.calls == map[] && s'.w.writeSeq == 0 && !s'.w.failed
  {
    IntactIndexIsImage(w.store.es);
    LoadEncoded(w.store.es);
    assert w.bytes[..|w.bytes|] == w.bytes;
    var n := OpenRecovers(g.c, w, s.ps, |w.bytes|, w.durable, EncodeAll(w.store.es));
    WholeFile(g.c, s.ps, n);
  }

  lemma WholeFile(c: Checksum, ps: seq<Payload>, n: nat)
    requires FixedWidth(c) && IsWhole(c, ps, |Frame(c, ps)|, n)
    ensures n == |ps| && ps[..n] == ps
  {
    assert ps[..|ps|] == ps;
    WholeIsUnique(c, ps, |Frame(c, ps)|, n, |ps|);
  }

  /** Closing a log after its first session leaves a checkpoint at every `nth` record, the unsynced ones included. */
  lemma CloseKeepsSpacing(g: Config, states: seq<Sys>, events: seq<Event>, k: nat)
    requires IsRun(g, states, events) && FirstSession(events, k) && !states[k].w.failed
    requires g.nth >= 4 || HasRoom(Close(g.nth, states[k].w).store.es)
    ensures Spaced(g.nth, Close(g.nth, states[k].w).store, |states[k].ps|)
  {
    var s := states[k];
    NoteAllGrows(g.nth, s.w.store, s.w.pending, |s.w.pending|);
    RunHasInv(g, states, events, k);
    FewRecords(g, states, events, k);
    SpacedInFirstSession(g, states, events, k);
    if s.w.writeSeq > s.w.syncedSeq {
      ManyRecords(g, states, events, k);
      QueueIsSmall(g.c, s.w, s.ps);
      NoteAllKeepsSpacing(g.nth, s.w.store, s.w.pending, s.w.syncedSeq, |s.w.pending|);
    }
  }

  lemma ManyRecords(g: Config, states: seq<Sys>, events: seq<Event>, k: nat)
    requires IsRun(g, states, events) && k < |states|
    ensures 4 * |states[k].ps| < TWO_63
  {
    var s := states[k];
    RunHasInv(g, states, events, k);
    StartIsLarge(g.c, s.ps, |s.ps|);
    assert s.ps[..|s.ps|] == s.ps;
  }

  /** So a read of any record, after the log was closed and opened again, walks over fewer than `nth` others. */
  lemma ShortWalksAfterClose(g: Config, states: seq<Sys>, events: seq<Event>, k: nat, o: nat)
    requires IsRun(g, states, events) && k < |events| && FirstSession(events, k) && events[k] == CleanRestart
    requires !states[k].w.failed && (g.nth >= 4 || HasRoom(states[k + 1].w.store.es)) && o < |states[k].ps|
    ensures var start := ReadStart(states[k + 1].w.store.es, o).off;
            start <= o < start + Stride(g.nth)
  {
    CleanRestartKeepsAll(g, states, events, k);
    CloseKeepsSpacing(g, states, events, k);
    var store := Close(g.nth, states[k].w).store;
    WalkIsShort(g.nth, store.es, store.n, |states[k].ps|, o);
  }
}
