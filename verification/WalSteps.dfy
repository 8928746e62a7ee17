/** Every step of the log keeps its invariant. */
module WalSteps {
  import opened Options
  import opened Bytes
  import opened WalFormat
  import opened WalRecovery
  import opened CheckpointIndex
  import opened WalReading
  import opened WalLog
  import opened WalSystem

  // ---------- starts, when records are added or cut ----------

  lemma StartOfLonger(c: Checksum, ps: seq<Payload>, p: Payload, k: nat)
    requires k <= |ps|
    ensures Start(c, ps + [p], k) == Start(c, ps, k)
  {
    assert (ps + [p])[..k] == ps[..k];
  }

  lemma StartOfShorter(c: Checksum, ps: seq<Payload>, n: nat, k: nat)
    requires k <= n <= |ps|
    ensures Start(c, ps[..n], k) == Start(c, ps, k)
  {
    assert ps[..n][..k] == ps[..k];
  }

  /** Every record takes at least four bytes, so offsets stay well inside 64 bits. */
  lemma {:induction false} StartIsLarge(c: Checksum, ps: seq<Payload>, k: nat)
    requires FixedWidth(c) && k <= |ps|
    ensures k * LENGTH_SIZE <= Start(c, ps, k)
  {
    if k > 0 {
      StartIsLarge(c, ps, k - 1);
      StartStep(c, ps, k - 1);
    }
  }

  lemma StoreOkLonger(c: Checksum, ps: seq<Payload>, p: Payload, es: seq<Checkpoint>, bound: nat, durable: nat)
    requires StoreOk(c, ps, es, bound, durable)
    ensures StoreOk(c, ps + [p], es, bound, durable)
  {
    forall e <- es ensures Correct(c, ps + [p], e) && Start(c, ps + [p], e.off + 1) <= durable {
      StartOfLonger(c, ps, p, e.off);
      StartOfLonger(c, ps, p, e.off + 1);
    }
  }

  // ---------- Reserve ----------

  lemma AppendedPending(c: Checksum, w: Wal, ps: seq<Payload>, data: Payload, rec: seq<byte>)
    requires PendingOk(c, w, ps) && FileOk(c, Appended(w, rec), ps + [data])
    ensures PendingOk(c, Appended(w, rec), ps + [data])
  {
    var w', ps' := Appended(w, rec), ps + [data];
    assert Base(w') == Base(w);
    forall i | 0 <= i < |w'.pending|
      ensures w'.pending[i] ==
              Pending(w.syncedSeq + 1 + i, Base(w) + w.syncedSeq + i, Start(c, ps', Base(w) + w.syncedSeq + i))
    {
      StartOfLonger(c, ps, data, Base(w) + w.syncedSeq + i);
      if i == |w.pending| {
        assert ps[..|ps|] == ps;
      }
    }
  }

  lemma AppendedKeepsWal(c: Checksum, w: Wal, ps: seq<Payload>, data: Payload, rec: seq<byte>)
    requires WalInv(c, w, ps) && |w.bytes| + |rec| < TWO_63
    requires Frame(c, ps + [data]) == Frame(c, ps) + rec
    ensures WalInv(c, Appended(w, rec), ps + [data])
  {
    AppendedPending(c, w, ps, data, rec);
    StartOfLonger(c, ps, data, Base(w) + w.syncedSeq);
    StoreOkLonger(c, ps, data, w.store.es, Base(w) + w.syncedSeq, w.durable);
  }

  lemma CallsLonger(c: Checksum, s: Sys, data: Payload, rec: seq<byte>)
    requires CallsOk(c, s) && s.w.nextOffset == |s.ps|
    ensures CallsOk(c, s.(w := Appended(s.w, rec), ps := s.ps + [data]))
  {
    var s' := s.(w := Appended(s.w, rec), ps := s.ps + [data]);
    assert Base(s'.w) == Base(s.w);
    forall t <- s'.calls ensures CallOk(c, s', s'.calls[t]) && LeaderOk(c, s', s'.calls[t]) {
      assert CallOk(c, s, s.calls[t]) && LeaderOk(c, s, s.calls[t]);
      if s.calls[t].Syncing? {
        StartOfLonger(c, s.ps, data, Base(s.w) + s.calls[t].target);
      }
    }
  }

  lemma AckedLonger(c: Checksum, w: Wal, ps: seq<Payload>, acked: set<nat>, data: Payload, rec: seq<byte>)
    requires AckedOk(c, w, ps, acked)
    ensures AckedOk(c, Appended(w, rec), ps + [data], acked)
  {
    forall o <- acked ensures Start(c, ps + [data], o + 1) <= w.durable {
      StartOfLonger(c, ps, data, o + 1);
    }
  }

  lemma ReserveKeeps(g: Config, s: Sys, data: seq<byte>)
    requires Inv(g.c, s)
    ensures Inv(g.c, Next(g, s, DoReserve(data)))
  {
    if Reserve(g.c, s.w, data).1.Reserved? {
      var rec := Record(g.c, data);
      FrameAppend(g.c, s.ps, data);
      AppendedKeepsWal(g.c, s.w, s.ps, data, rec);
      AckedLonger(g.c, s.w, s.ps, s.acked, data, rec);
      CallsLonger(g.c, s, data, rec);
    }
  }

  // ---------- Commit, up to the fsync ----------

  lemma EnterKeepsLeader(c: Checksum, s: Sys, t: ThreadId, ticket: nat)
    requires forall u <- s.calls :: LeaderOk(c, s, s.calls[u])
    ensures var s' := s.(calls := s.calls[t := Trying(ticket, s.syncs)]);
            forall u <- s'.calls :: LeaderOk(c, s', s'.calls[u])
  {
    var s' := s.(calls := s.calls[t := Trying(ticket, s.syncs)]);
    forall u <- s'.calls ensures LeaderOk(c, s', s'.calls[u]) {
      if u != t {
        assert LeaderOk(c, s, s.calls[u]);
      }
    }
  }

  lemma EnterKeepsCalls(c: Checksum, s: Sys, t: ThreadId, ticket: nat)
    requires CallsOk(c, s) && Enabled(s, Enter(t, ticket))
    ensures CallsOk(c, s.(calls := s.calls[t := Trying(ticket, s.syncs)]))
  {
    var s' := s.(calls := s.calls[t := Trying(ticket, s.syncs)]);
    forall u <- s'.calls ensures CallOk(c, s', s'.calls[u]) {
      if u != t {
        assert CallOk(c, s, s.calls[u]);
      }
    }
    EnterKeepsLeader(c, s, t, ticket);
    if s.w.syncing {
      var u :| u in s.calls && s.calls[u].Syncing?;
      assert u in s'.calls && s'.calls[u].Syncing?;
    }
  }

  lemma EnterKeeps(g: Config, s: Sys, t: ThreadId, ticket: nat)
    requires Inv(g.c, s) && Enabled(s, Enter(t, ticket))
    ensures Inv(g.c, Next(g, s, Enter(t, ticket)))
  {
    EnterKeepsCalls(g.c, s, t, ticket);
  }

  lemma TurnKeeps(g: Config, s: Sys, t: ThreadId)
    requires FixedWidth(g.c) && Inv(g.c, s) && Enabled(s, TakeTurn(t))
    ensures Inv(g.c, Turned(s, t))
  {
    assert CallOk(g.c, s, s.calls[t]);
    match CommitTurn(s.w, s.calls[t].ticket).1
    case Return(ok) => ReturnKeeps(g.c, s, t, ok);
    case Wait => WaitKeeps(g.c, s, t);
    case Lead(_) => LeadKeeps(g.c, s, t);
  }

  /** The calls of a step that gives one of them a new state and changes nothing a call depends on. */
  lemma OneCallKeeps(c: Checksum, s: Sys, s': Sys, t: ThreadId, call: Call)
    requires CallsOk(c, s) && t in s.calls && s.calls[t].Trying?
    requires s'.calls == s.calls[t := call] && s'.w == s.w && s'.ps == s.ps && s'.syncs == s.syncs
    requires s.acked <= s'.acked && CallOk(c, s', call) && !call.Syncing?
    requires !call.Returned? ==> call.entered == s.calls[t].entered && call.ticket == s.calls[t].ticket
    ensures CallsOk(c, s')
  {
    forall u <- s'.calls ensures CallOk(c, s', s'.calls[u]) && LeaderOk(c, s', s'.calls[u]) {
      if u != t {
        assert CallOk(c, s, s.calls[u]) && LeaderOk(c, s, s.calls[u]);
      }
    }
    if s.w.syncing {
      var u :| u in s.calls && s.calls[u].Syncing?;
      assert u in s'.calls && s'.calls[u].Syncing?;
    }
  }

  lemma AckIsDurable(c: Checksum, w: Wal, ps: seq<Payload>, acked: set<nat>, ticket: nat)
    requires FixedWidth(c) && WalInv(c, w, ps) && AckedOk(c, w, ps, acked) && 1 <= ticket <= w.syncedSeq
    ensures 0 <= Base(w) + ticket - 1 && AckedOk(c, w, ps, acked + {Base(w) + ticket - 1})
  {
    StartMonotone(c, ps, Base(w) + ticket, Base(w) + w.syncedSeq);
  }

  lemma ReturnKeepsCalls(c: Checksum, s: Sys, t: ThreadId, ok: bool)
    requires CallsOk(c, s) && t in s.calls && s.calls[t].Trying? && 0 <= Base(s.w)
    requires CommitTurn(s.w, s.calls[t].ticket).1 == Return(ok)
    ensures CallsOk(c, Turned(s, t))
  {
    var call := s.calls[t];
    assert CallOk(c, s, call);
    OneCallKeeps(c, s, Turned(s, t), t, Returned(call.ticket, ok));
  }

  lemma ReturnKeeps(c: Checksum, s: Sys, t: ThreadId, ok: bool)
    requires FixedWidth(c) && Inv(c, s) && t in s.calls && s.calls[t].Trying?
    requires CommitTurn(s.w, s.calls[t].ticket).1 == Return(ok)
    ensures Inv(c, Turned(s, t))
  {
    assert CallOk(c, s, s.calls[t]);
    if ok {
      AckIsDurable(c, s.w, s.ps, s.acked, s.calls[t].ticket);
    }
    ReturnKeepsCalls(c, s, t, ok);
  }

  lemma WaitKeeps(c: Checksum, s: Sys, t: ThreadId)
    requires Inv(c, s) && t in s.calls && s.calls[t].Trying?
    requires CommitTurn(s.w, s.calls[t].ticket).1 == Wait
    ensures Inv(c, Turned(s, t))
  {
    var call := s.calls[t];
    assert CallOk(c, s, call);
    OneCallKeeps(c, s, Turned(s, t), t, Waiting(call.ticket, call.entered));
  }

  lemma LeadKeepsCalls(c: Checksum, s: Sys, t: ThreadId)
    requires CallsOk(c, s) && FileOk(c, s.w, s.ps) && t in s.calls && s.calls[t].Trying?
    requires CommitTurn(s.w, s.calls[t].ticket).1.Lead?
    ensures CallsOk(c, Turned(s, t))
  {
    var s' := Turned(s, t);
    assert Base(s.w) + s.w.writeSeq == |s.ps| && s.ps[..|s.ps|] == s.ps;
    forall u <- s'.calls ensures CallOk(c, s', s'.calls[u]) {
      assert CallOk(c, s, s.calls[u]);
    }
    forall u <- s'.calls ensures u != t ==> !s'.calls[u].Syncing? {
      assert LeaderOk(c, s, s.calls[u]);
    }
    forall u <- s'.calls ensures s'.calls[u].ticket <= s.w.writeSeq {
      assert CallOk(c, s', s'.calls[u]);
    }
    assert LeaderOk(c, s', s'.calls[t]);
    assert t in s'.calls && s'.calls[t].Syncing?;
  }

  lemma LeadKeeps(c: Checksum, s: Sys, t: ThreadId)
    requires Inv(c, s) && t in s.calls && s.calls[t].Trying?
    requires CommitTurn(s.w, s.calls[t].ticket).1.Lead?
    ensures Inv(c, Turned(s, t))
  {
    LeadKeepsCalls(c, s, t);
    FlagsAreIrrelevant(c, s.w, s.ps, true, s.w.failed);
  }

  // ---------- the fsync completes ----------

  lemma {:induction false} CoveredCount(pending: seq<Pending>, first: nat, target: nat)
    requires forall i :: 0 <= i < |pending| ==> pending[i].ticket == first + i
    requires first <= target + 1 <= first + |pending|
    ensures Covered(pending, target) == target + 1 - first
  {
    if first <= target {
      CoveredCount(pending[1..], first + 1, target);
    }
  }

  lemma NoteAppends(nth: nat, s: Store, b: nat, pos: nat)
    requires b < TWO_64 && pos < TWO_63
    ensures Note(nth, s, b, pos).es == s.es || Note(nth, s, b, pos).es == s.es + [Checkpoint(b, pos)]
  {
  }

  lemma StoreOkWider(c: Checksum, ps: seq<Payload>, es: seq<Checkpoint>, bound: nat, bound': nat, durable: nat)
    requires StoreOk(c, ps, es, bound, durable) && bound <= bound'
    ensures StoreOk(c, ps, es, bound', durable)
  {
  }

  lemma StoreOkAppend(c: Checksum, ps: seq<Payload>, es: seq<Checkpoint>, e: Checkpoint, durable: nat)
    requires FixedWidth(c) && StoreOk(c, ps, es, e.off, durable) && Correct(c, ps, e)
    requires Start(c, ps, e.off + 1) <= durable
    ensures StoreOk(c, ps, es + [e], e.off + 1, durable)
  {
    if es != [] {
      var last := es[|es| - 1];
      assert last in es;
      StartMonotone(c, ps, last.off, e.off);
    }
    RisingAppend(es, e);
  }

  lemma NoteKeepsStore(c: Checksum, nth: nat, ps: seq<Payload>, s: Store, b: nat, durable: nat)
    requires FixedWidth(c) && StoreOk(c, ps, s.es, b, durable)
    requires b < |ps| && Start(c, ps, b + 1) <= durable < TWO_63
    ensures StoreOk(c, ps, Note(nth, s, b, Start(c, ps, b)).es, b + 1, durable)
  {
    StartIsLarge(c, ps, b);
    StartMonotone(c, ps, b, b + 1);
    NoteAppends(nth, s, b, Start(c, ps, b));
    StoreOkWider(c, ps, s.es, b, b + 1, durable);
    StoreOkAppend(c, ps, s.es, Checkpoint(b, Start(c, ps, b)), durable);
  }

  lemma {:induction false} NoteAllKeepsStore(c: Checksum, nth: nat, ps: seq<Payload>, s: Store, pending: seq<Pending>,
                                             b: nat, k: nat, durable: nat)
    requires FixedWidth(c) && StoreOk(c, ps, s.es, b, durable)
    requires k <= |pending| && b + |pending| <= |ps|
    requires forall i :: 0 <= i < |pending| ==> pending[i].off == b + i && pending[i].pos == Start(c, ps, b + i)
    requires (k > 0 ==> Start(c, ps, b + k) <= durable) && durable < TWO_63
    ensures StoreOk(c, ps, NoteAll(nth, s, pending, k).es, b + k, durable)
  {
    if k > 0 {
      StartMonotone(c, ps, b + k - 1, b + k);
      NoteAllKeepsStore(c, nth, ps, s, pending, b, k - 1, durable);
      NoteKeepsStore(c, nth, ps, NoteAll(nth, s, pending, k - 1), b + k - 1, durable);
    }
  }

  lemma StoreOkMoreDurable(c: Checksum, ps: seq<Payload>, es: seq<Checkpoint>, bound: nat, durable: nat, durable': nat)
    requires StoreOk(c, ps, es, bound, durable) && durable <= durable'
    ensures StoreOk(c, ps, es, bound, durable')
  {
  }

  /** The log after its first `k` waiting records were fsynced and noted. */
  function Synced(nth: nat, w: Wal, k: nat, durable: nat): Wal
    requires k <= |w.pending|
  {
    w.(durable := durable, syncedSeq := w.syncedSeq + k,
       store := NoteAll(nth, w.store, w.pending, k), pending := w.pending[k..])
  }

  lemma SyncedPending(c: Checksum, nth: nat, w: Wal, ps: seq<Payload>, k: nat, durable: nat)
    requires PendingOk(c, w, ps) && k <= |w.pending|
    ensures PendingOk(c, Synced(nth, w, k, durable), ps)
  {
    PendingDrops(c, w, Synced(nth, w, k, durable), ps, k);
  }

  lemma PendingDrops(c: Checksum, w: Wal, w': Wal, ps: seq<Payload>, k: nat)
    requires PendingOk(c, w, ps) && k <= |w.pending| && w'.pending == w.pending[k..] && w'.syncedSeq == w.syncedSeq + k
    requires w'.bytes == w.bytes && w'.size == w.size && w'.nextOffset == w.nextOffset && w'.writeSeq == w.writeSeq
    ensures PendingOk(c, w', ps)
  {
    forall i | 0 <= i < |w'.pending|
      ensures w'.pending[i] == Pending(w'.syncedSeq + 1 + i, Base(w') + w'.syncedSeq + i,
                                       Start(c, ps, Base(w') + w'.syncedSeq + i))
    {
      assert w'.pending[i] == w.pending[k + i];
    }
  }

  lemma SyncedStore(c: Checksum, nth: nat, w: Wal, ps: seq<Payload>, k: nat, durable: nat)
    requires FixedWidth(c) && PendingOk(c, w, ps)
    requires StoreOk(c, ps, w.store.es, Base(w) + w.syncedSeq, w.durable)
    requires k <= |w.pending| && w.durable <= durable <= |w.bytes|
    requires Start(c, ps, Base(w) + w.syncedSeq + k) <= durable || k == 0
    ensures StoreOk(c, ps, NoteAll(nth, w.store, w.pending, k).es, Base(w) + w.syncedSeq + k, durable)
  {
    StoreOkMoreDurable(c, ps, w.store.es, Base(w) + w.syncedSeq, w.durable, durable);
    NoteAllKeepsStore(c, nth, ps, w.store, w.pending, Base(w) + w.syncedSeq, k, durable);
  }

  lemma SyncedKeepsWal(c: Checksum, nth: nat, w: Wal, ps: seq<Payload>, k: nat, durable: nat)
    requires FixedWidth(c) && WalInv(c, w, ps)
    requires k <= |w.pending| && w.durable <= durable <= |w.bytes|
    requires Start(c, ps, Base(w) + w.syncedSeq + k) <= durable || k == 0
    ensures WalInv(c, Synced(nth, w, k, durable), ps)
  {
    var w' := Synced(nth, w, k, durable);
    assert Base(w') == Base(w);
    SyncedPending(c, nth, w, ps, k, durable);
    SyncedStore(c, nth, w, ps, k, durable);
  }

  lemma SyncDoneIsSynced(c: Checksum, nth: nat, w: Wal, ps: seq<Payload>, target: nat, flushed: nat)
    requires WalInv(c, w, ps) && w.syncedSeq <= target <= w.writeSeq
    ensures target - w.syncedSeq <= |w.pending|
    ensures SyncDone(nth, w, target, flushed, true) ==
            Synced(nth, w, target - w.syncedSeq, if flushed > w.durable then flushed else w.durable).(syncing := false)
  {
    CoveredCount(w.pending, w.syncedSeq + 1, target);
    SyncDoneCovers(nth, w, target, flushed, target - w.syncedSeq);
  }

  lemma SyncDoneCovers(nth: nat, w: Wal, target: nat, flushed: nat, k: nat)
    requires Covered(w.pending, target) == k && target == w.syncedSeq + k
    ensures SyncDone(nth, w, target, flushed, true) ==
            Synced(nth, w, k, if flushed > w.durable then flushed else w.durable).(syncing := false)
  {
  }

  lemma FlagsAreIrrelevant(c: Checksum, w: Wal, ps: seq<Payload>, syncing: bool, failed: bool)
    requires WalInv(c, w, ps)
    ensures WalInv(c, w.(syncing := syncing, failed := failed), ps)
  {
    assert Base(w.(syncing := syncing, failed := failed)) == Base(w);
  }

  lemma SyncDoneKeepsWal(c: Checksum, nth: nat, w: Wal, ps: seq<Payload>, target: nat)
    requires FixedWidth(c) && WalInv(c, w, ps) && w.syncedSeq <= target <= w.writeSeq
    ensures WalInv(c, SyncDone(nth, w, target, Start(c, ps, Base(w) + target), true), ps)
  {
    var flushed := Start(c, ps, Base(w) + target);
    var durable := if flushed > w.durable then flushed else w.durable;
    FramePrefix(c, ps, Base(w) + target);
    SyncDoneIsSynced(c, nth, w, ps, target, flushed);
    assert Base(w) + w.syncedSeq + (target - w.syncedSeq) == Base(w) + target;
    SyncedKeepsWal(c, nth, w, ps, target - w.syncedSeq, durable);
    FlagsAreIrrelevant(c, Synced(nth, w, target - w.syncedSeq, durable), ps, false, w.failed);
  }

  lemma FinishedCalls(g: Config, s: Sys, t: ThreadId, ok: bool)
    requires CallsOk(g.c, s) && t in s.calls && s.calls[t].Syncing?
    ensures CallsOk(g.c, Finished(g, s, t, ok))
  {
    var call, s' := s.calls[t], Finished(g, s, t, ok);
    assert CallOk(g.c, s, call) && LeaderOk(g.c, s, call);
    forall u <- s'.calls ensures CallOk(g.c, s', s'.calls[u]) && !s'.calls[u].Syncing? {
      assert CallOk(g.c, s, s.calls[u]);
      if u != t {
        assert !s.calls[u].Syncing?;
      }
    }
  }

  lemma FinishKeeps(g: Config, s: Sys, t: ThreadId, ok: bool)
    requires FixedWidth(g.c) && Inv(g.c, s) && t in s.calls && s.calls[t].Syncing?
    ensures Inv(g.c, Finished(g, s, t, ok))
  {
    FinishedCalls(g, s, t, ok);
    FinishedWal(g, s, t, ok);
  }

  lemma FinishedWal(g: Config, s: Sys, t: ThreadId, ok: bool)
    requires FixedWidth(g.c) && WalInv(g.c, s.w, s.ps) && t in s.calls && s.calls[t].Syncing?
    requires LeaderOk(g.c, s, s.calls[t])
    ensures WalInv(g.c, Finished(g, s, t, ok).w, s.ps) && s.w.durable <= Finished(g, s, t, ok).w.durable
  {
    if ok {
      SyncDoneKeepsWal(g.c, g.nth, s.w, s.ps, s.calls[t].target);
    } else {
      FlagsAreIrrelevant(g.c, s.w, s.ps, false, true);
    }
  }

  // ---------- crash and reopening ----------

  lemma {:induction false} FloorOfAll(es: seq<Checkpoint>)
    ensures Floor(es, TWO_64 - 1) == if es == [] then Option.None else Option.Some(es[|es| - 1])
  {
  }

  /** What a crash can leave of the index loads as checkpoints that are correct in what is left of the file. */
  lemma LoadedStoreOk(c: Checksum, w: Wal, ps: seq<Payload>, index: seq<byte>, length: nat)
    requires FixedWidth(c) && WalInv(c, w, ps) && CrashImage(w.store.es, index)
    requires w.durable <= length <= |w.bytes|
    ensures StoreOk(c, ps, Load(index), |ps|, w.durable)
  {
    var es := Load(index);
    LoadKeepsLongest(index, |es|);
    forall e <- es ensures e.off < |ps| && Correct(c, ps, e) && Start(c, ps, e.off + 1) <= w.durable {
      var i :| 0 <= i < |es| && es[i] == e;
      LoadAfterCrash(w.store.es, index, i);
      LoadedEntryOk(c, ps, w.store.es, Base(w) + w.syncedSeq, w.durable, i, e);
    }
  }

  /** An entry as written is correct, and so is (0, 0) if anything was written. */
  lemma LoadedEntryOk(c: Checksum, ps: seq<Payload>, es: seq<Checkpoint>, bound: nat, durable: nat, i: nat, e: Checkpoint)
    requires FixedWidth(c) && StoreOk(c, ps, es, bound, durable) && i < |es|
    requires e == es[i] || e == Checkpoint(0, 0)
    ensures e.off < |ps| && Correct(c, ps, e) && Start(c, ps, e.off + 1) <= durable
  {
    if e == es[i] {
      assert e in es;
    } else {
      var first := es[0];
      assert first in es;
      StartMonotone(c, ps, 1, first.off + 1);
      assert ps[..0] == [];
    }
  }

  /** Checkpoints whose records survive are correct among the survivors. */
  lemma StoreOkShorter(c: Checksum, ps: seq<Payload>, n: nat, es: seq<Checkpoint>, durable: nat, durable': nat)
    requires FixedWidth(c) && StoreOk(c, ps, es, |ps|, durable)
    requires n <= |ps| && durable <= durable' && (n < |ps| ==> durable < Start(c, ps, n + 1))
    ensures StoreOk(c, ps[..n], es, n, durable')
  {
    forall e <- es ensures e.off < n && Correct(c, ps[..n], e) && Start(c, ps[..n], e.off + 1) <= durable' {
      if e.off >= n {
        StartMonotone(c, ps, n + 1, e.off + 1);
      }
      StartOfShorter(c, ps, n, e.off);
      StartOfShorter(c, ps, n, e.off + 1);
    }
  }

  /** The guard on the last checkpoint holds, so the tail scan starts there and finds the whole records. */
  lemma OpenScans(c: Checksum, bytes: seq<byte>, ps: seq<Payload>, es: seq<Checkpoint>, durable: nat) returns (n: nat)
    requires FixedWidth(c) && bytes <= Frame(c, ps)
    requires StoreOk(c, ps, es, |ps|, durable) && durable <= |bytes| < TWO_63
    ensures IsWhole(c, ps, |bytes|, n)
    ensures es != [] ==> Trusted(c, bytes, es[|es| - 1]) && es[|es| - 1].pos >= 0
    ensures var (off, pos) := if es != [] then (es[|es| - 1].off, es[|es| - 1].pos) else (0, 0);
            pos <= |bytes| && Scan(HeaderSize(c), bytes, pos, off) == Head(n, Start(c, ps, n))
  {
    assert ps[..0] == [];
    if es != [] {
      var last := es[|es| - 1];
      assert last in es;
      StartMonotone(c, ps, last.off, last.off + 1);
      n := ScanFindsWhole(c, bytes, ps, last.off);
    } else {
      n := ScanFindsWhole(c, bytes, ps, 0);
    }
  }

  /** The log recovery arrives at: exactly the whole records that survived, whatever the crash left. */
  function Survivors(c: Checksum, ps: seq<Payload>, n: nat, es: seq<Checkpoint>, durable: nat): Wal
    requires n <= |ps|
  {
    var size := Start(c, ps, n);
    Wal(Frame(c, ps[..n]), if durable < size then durable else size, size, n, 0, 0, false, false, [], Store(es, 0))
  }

  lemma OpenRecovers(c: Checksum, w: Wal, ps: seq<Payload>, length: nat, durable: nat, index: seq<byte>)
    returns (n: nat)
    requires FixedWidth(c) && WalInv(c, w, ps)
    requires w.durable <= durable <= length <= |w.bytes| && CrashImage(w.store.es, index)
    ensures IsWhole(c, ps, length, n)
    ensures Open(c, w.bytes[..length], durable, index) == Opened(Survivors(c, ps, n, Load(index), durable))
    ensures StoreOk(c, ps, Load(index), |ps|, w.durable)
  {
    var bytes, es := w.bytes[..length], Load(index);
    LoadedStoreOk(c, w, ps, index, length);
    n := OpenScans(c, bytes, ps, es, w.durable);
    FloorOfAll(es);
    CutAtHead(c, bytes, ps, n);
  }

  /** Recovery restores the invariant over the surviving records, and keeps every acknowledged one. */
  lemma ReopenKeeps(g: Config, s: Sys, length: nat, durable: nat, index: seq<byte>)
    requires FixedWidth(g.c) && WalInv(g.c, s.w, s.ps) && AckedOk(g.c, s.w, s.ps, s.acked)
    requires s.w.durable <= durable <= length <= |s.w.bytes| && CrashImage(s.w.store.es, index)
    ensures Inv(g.c, Reopened(g, s, s.w.bytes[..length], durable, index))
  {
    var n := OpenRecovers(g.c, s.w, s.ps, length, durable, index);
    var s' := Reopened(g, s, s.w.bytes[..length], durable, index);
    SurvivorsOk(g.c, s.w, s.ps, n, length, durable, index);
    AckedSurvive(g.c, s.w, s.ps, s.acked, n, length, durable, Load(index));
  }

  lemma AckedSurvive(c: Checksum, w: Wal, ps: seq<Payload>, acked: set<nat>, n: nat, length: nat, durable: nat,
                     es: seq<Checkpoint>)
    requires FixedWidth(c) && AckedOk(c, w, ps, acked) && IsWhole(c, ps, length, n)
    requires w.durable <= durable <= length
    ensures AckedOk(c, Survivors(c, ps, n, es, durable), ps[..n], acked)
  {
    forall o <- acked ensures o < n && Start(c, ps[..n], o + 1) <= Survivors(c, ps, n, es, durable).durable {
      if o >= n {
        StartMonotone(c, ps, n + 1, o + 1);
      }
      StartMonotone(c, ps, o + 1, n);
      StartOfShorter(c, ps, n, o + 1);
    }
  }

  lemma SurvivorsOk(c: Checksum, w: Wal, ps: seq<Payload>, n: nat, length: nat, durable: nat, index: seq<byte>)
    requires FixedWidth(c) && WalInv(c, w, ps) && IsWhole(c, ps, length, n)
    requires w.durable <= durable <= length <= |w.bytes| && StoreOk(c, ps, Load(index), |ps|, w.durable)
    ensures WalInv(c, Survivors(c, ps, n, Load(index), durable), ps[..n])
  {
    var w' := Survivors(c, ps, n, Load(index), durable);
    FramePrefix(c, ps, n);
    StartOfShorter(c, ps, n, n);
    StoreOkShorter(c, ps, n, Load(index), w.durable, w.durable);
    DurableStore(c, ps[..n], Load(index), n, w.durable, w'.durable);
  }

  /** A record among `n` that ends within `durable` bytes also ends within the file of the `n`. */
  lemma DurableStore(c: Checksum, ps: seq<Payload>, es: seq<Checkpoint>, bound: nat, durable: nat, durable': nat)
    requires FixedWidth(c) && StoreOk(c, ps, es, bound, durable)
    requires durable <= durable' || durable' == Start(c, ps, |ps|)
    ensures StoreOk(c, ps, es, bound, durable')
  {
    forall e <- es ensures Start(c, ps, e.off + 1) <= durable' {
      StartMonotone(c, ps, e.off + 1, |ps|);
    }
  }

  /** The file as written is one of the images a crash can leave. */
  lemma IntactIndexIsImage(es: seq<Checkpoint>)
    ensures CrashImage(es, EncodeAll(es))
  {
    forall i | 0 <= i < |EncodeAll(es)| / ENTRY_BYTES ensures SlotBytes(EncodeAll(es), i) == EncodeEntry(es[i]) {
      SlotOfEncoded(es, i);
    }
  }

  /** Close leaves nothing waiting unless an fsync has failed, and loses no acknowledged record. */
  lemma CloseKeeps(c: Checksum, nth: nat, w: Wal, ps: seq<Payload>)
    requires FixedWidth(c) && WalInv(c, w, ps)
    ensures WalInv(c, Close(nth, w), ps) && w.durable <= Close(nth, w).durable
    ensures !w.failed && w.syncedSeq < w.writeSeq ==> Close(nth, w).durable == |w.bytes|
    ensures !w.failed ==> Close(nth, w).pending == [] && Close(nth, w).syncedSeq == w.writeSeq
  {
    if w.writeSeq > w.syncedSeq && !w.failed {
      assert ps[..|ps|] == ps;
      SyncedKeepsWal(c, nth, w, ps, |w.pending|, |w.bytes|);
      assert Close(nth, w) == Synced(nth, w, |w.pending|, |w.bytes|);
    }
  }

  lemma RestartKeeps(g: Config, s: Sys)
    requires FixedWidth(g.c) && Inv(g.c, s) && Enabled(s, CleanRestart)
    ensures Inv(g.c, Next(g, s, CleanRestart))
  {
    var w' := Close(g.nth, s.w);
    CloseKeeps(g.c, g.nth, s.w, s.ps);
    IntactIndexIsImage(w'.store.es);
    assert w'.bytes[..|w'.bytes|] == w'.bytes;
    ReopenKeeps(g, s.(w := w'), |w'.bytes|, w'.durable, EncodeAll(w'.store.es));
    var n := OpenRecovers(g.c, w', s.ps, |w'.bytes|, w'.durable, EncodeAll(w'.store.es));
  }

  // ---------- all steps ----------

  lemma NextKeepsInv(g: Config, s: Sys, e: Event)
    requires FixedWidth(g.c) && Inv(g.c, s) && Enabled(s, e)
    ensures Inv(g.c, Next(g, s, e))
  {
    match e
    case DoReserve(data) => ReserveKeeps(g, s, data);
    case Enter(t, ticket) => EnterKeeps(g, s, t, ticket);
    case TakeTurn(t) => TurnKeeps(g, s, t);
    case FinishSync(t, ok) => FinishKeeps(g, s, t, ok);
    case Crash(length, durable, index) => ReopenKeeps(g, s, length, durable, index);
    case CleanRestart => RestartKeeps(g, s);
  }
}
