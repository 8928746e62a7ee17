/** One log file under any number of writers, with crashes: the step relation and its invariant. */
module WalSystem {
  import opened Bytes
  import opened WalFormat
  import opened CheckpointIndex
  import opened WalReading
  import opened WalLog

  type ThreadId = nat

  /** Where a call of Commit is. `entered` is how many fsyncs had completed when the call began. */
  datatype Call =
    | Trying(ticket: nat, entered: nat)
    | Waiting(ticket: nat, entered: nat)
    | Syncing(ticket: nat, entered: nat, target: nat, flushed: nat)
    | Returned(ticket: nat, ok: bool)

  /** The log with its callers. `ps` are the payloads the file holds, `acked` the offsets whose Commit returned
      without error, `syncs` how many fsyncs have completed since the log was opened. */
  datatype Sys = Sys(w: Wal, calls: map<ThreadId, Call>, ps: seq<Payload>, acked: set<nat>, syncs: nat)

  /** The checksum in use and the spacing of checkpoints. */
  datatype Config = Config(c: Checksum, nth: nat)

  datatype Event =
    | DoReserve(data: seq<byte>)
    | Enter(t: ThreadId, ticket: nat)
    | TakeTurn(t: ThreadId)
    | FinishSync(t: ThreadId, ok: bool)
    | Crash(length: nat, durable: nat, index: seq<byte>)
    | CleanRestart

  /** The first offset of this session: what recovery found. */
  function Base(w: Wal): int {
    w.nextOffset - w.writeSeq
  }

  /** A crash keeps any prefix of the file that contains the fsynced bytes, and any crash image of the index.
      A clean restart needs that no call is under way. */
  ghost predicate Enabled(s: Sys, e: Event) {
    match e
    case DoReserve(_) => true
    case Enter(t, ticket) => (t in s.calls ==> s.calls[t].Returned?) && 1 <= ticket <= s.w.writeSeq
    case TakeTurn(t) => t in s.calls && s.calls[t].Trying?
    case FinishSync(t, _) => t in s.calls && s.calls[t].Syncing?
    case Crash(length, durable, index) =>
      s.w.durable <= durable <= length <= |s.w.bytes| && CrashImage(s.w.store.es, index)
    case CleanRestart => forall t <- s.calls :: s.calls[t].Returned?
  }

  function Turned(s: Sys, t: ThreadId): Sys
    requires t in s.calls && s.calls[t].Trying?
  {
    var call := s.calls[t];
    var (w', turn) := CommitTurn(s.w, call.ticket);
    match turn
    case Return(ok) =>
      s.(calls := s.calls[t := Returned(call.ticket, ok)],
         acked := if ok && 1 <= Base(s.w) + call.ticket then s.acked + {Base(s.w) + call.ticket - 1} else s.acked)
    case Wait => s.(calls := s.calls[t := Waiting(call.ticket, call.entered)])
    case Lead(target) =>
      s.(w := w', calls := s.calls[t := Syncing(call.ticket, call.entered, target, |s.w.bytes|)])
  }

  /** The broadcast: every waiter tries again. */
  function Woken(calls: map<ThreadId, Call>): map<ThreadId, Call> {
    map t | t in calls :: if calls[t].Waiting? then Trying(calls[t].ticket, calls[t].entered) else calls[t]
  }

  /** The leader goes round its loop again, or returns the error it has just made sticky. */
  function Finished(g: Config, s: Sys, t: ThreadId, ok: bool): Sys
    requires t in s.calls && s.calls[t].Syncing?
  {
    var call := s.calls[t];
    s.(w := SyncDone(g.nth, s.w, call.target, call.flushed, ok),
       calls := Woken(s.calls)[t := if ok then Trying(call.ticket, call.entered) else Returned(call.ticket, false)],
       syncs := s.syncs + 1)
  }

  /** Reopening after the file and index were left as given; a failed opening leaves the system as it was. */
  function Reopened(g: Config, s: Sys, bytes: seq<byte>, durable: nat, index: seq<byte>): Sys {
    match Open(g.c, bytes, durable, index)
    case OpenFailed => s
    case Opened(w) => Sys(w, map[], if w.nextOffset <= |s.ps| then s.ps[..w.nextOffset] else s.ps, s.acked, 0)
  }

  function Next(g: Config, s: Sys, e: Event): Sys
    requires Enabled(s, e)
  {
    match e
    case DoReserve(data) =>
      var (w', r) := Reserve(g.c, s.w, data);
      if r.Reserved? then s.(w := w', ps := s.ps + [data]) else s
    case Enter(t, ticket) => s.(calls := s.calls[t := Trying(ticket, s.syncs)])
    case TakeTurn(t) => Turned(s, t)
    case FinishSync(t, ok) => Finished(g, s, t, ok)
    case Crash(length, durable, index) => Reopened(g, s, s.w.bytes[..length], durable, index)
    case CleanRestart =>
      var w' := Close(g.nth, s.w);
      Reopened(g, s, w'.bytes, w'.durable, EncodeAll(w'.store.es))
  }

  /** A fresh log: no file, no index. */
  const EMPTY: Sys := Sys(Wal([], 0, 0, 0, 0, 0, false, false, [], Store([], 0)), map[], [], {}, 0)

  ghost predicate IsStep(g: Config, s: Sys, e: Event, s': Sys) {
    Enabled(s, e) && s' == Next(g, s, e)
  }

  ghost predicate IsRun(g: Config, states: seq<Sys>, events: seq<Event>) {
    && FixedWidth(g.c)
    && |states| == |events| + 1
    && states[0] == EMPTY
    && forall k {:trigger IsStep(g, states[k], events[k], states[k + 1])} :: 0 <= k < |events| ==>
         IsStep(g, states[k], events[k], states[k + 1])
  }

  lemma RunStep(g: Config, states: seq<Sys>, events: seq<Event>, k: nat)
    requires IsRun(g, states, events) && k < |events|
    ensures IsStep(g, states[k], events[k], states[k + 1])
  {
  }

  // ---------- the invariant ----------

  /** The file is exactly the records, and the counters say so. */
  ghost predicate FileOk(c: Checksum, w: Wal, ps: seq<Payload>) {
    && w.bytes == Frame(c, ps) && |w.bytes| < TWO_63
    && w.size == |w.bytes| && w.nextOffset == |ps|
    && w.syncedSeq <= w.writeSeq <= |ps|
  }

  /** Everything up to the last synced ticket lies in the fsynced bytes. */
  ghost predicate DurableOk(c: Checksum, w: Wal, ps: seq<Payload>) {
    && FileOk(c, w, ps)
    && w.durable <= |w.bytes|
    && (w.syncedSeq > 0 ==> Start(c, ps, Base(w) + w.syncedSeq) <= w.durable)
  }

  /** The waiting checkpoints are exactly the records not yet synced, in order, with their true positions. */
  ghost predicate PendingOk(c: Checksum, w: Wal, ps: seq<Payload>) {
    && FileOk(c, w, ps)
    && |w.pending| == w.writeSeq - w.syncedSeq
    && forall i :: 0 <= i < |w.pending| ==>
         w.pending[i] == Pending(w.syncedSeq + 1 + i, Base(w) + w.syncedSeq + i, Start(c, ps, Base(w) + w.syncedSeq + i))
  }

  /** Checkpoints rise, lie below `bound`, and each names the true start of a record whose last byte is among
      the first `durable` of the file. */
  ghost predicate StoreOk(c: Checksum, ps: seq<Payload>, es: seq<Checkpoint>, bound: nat, durable: nat) {
    && StrictlyRising(es)
    && forall e <- es :: e.off < bound && Correct(c, ps, e) && Start(c, ps, e.off + 1) <= durable
  }

  ghost predicate WalInv(c: Checksum, w: Wal, ps: seq<Payload>) {
    && DurableOk(c, w, ps)
    && PendingOk(c, w, ps)
    && StoreOk(c, ps, w.store.es, Base(w) + w.syncedSeq, w.durable)
  }

  ghost predicate AckedOk(c: Checksum, w: Wal, ps: seq<Payload>, acked: set<nat>) {
    forall o <- acked :: o < |ps| && Start(c, ps, o + 1) <= w.durable
  }

  /** A call: a leader's target and flushed bytes belong together; a call that has seen one fsync complete since
      it began is covered by the one in flight, and by the second it is synced or the error is set; a call that
      returned without error is synced. */
  ghost predicate CallOk(c: Checksum, s: Sys, call: Call) {
    && 1 <= call.ticket <= s.w.writeSeq
    && (!call.Returned? ==>
          && call.entered <= s.syncs
          && (call.entered + 2 <= s.syncs ==> s.w.failed || call.ticket <= s.w.syncedSeq))
    && (call.Returned? && call.ok ==> call.ticket <= s.w.syncedSeq && Base(s.w) + call.ticket - 1 in s.acked)
    && (call.Waiting? ==> s.w.syncing)
  }

  /** The one call that runs the fsync. */
  ghost predicate LeaderOk(c: Checksum, s: Sys, call: Call) {
    call.Syncing? ==>
      && s.w.syncing && !s.w.failed
      && call.ticket <= call.target <= s.w.writeSeq && s.w.syncedSeq <= call.target
      && 0 <= Base(s.w) + call.target <= |s.ps|
      && call.flushed == Start(c, s.ps, Base(s.w) + call.target)
      && forall u <- s.calls :: (!s.calls[u].Returned? && s.calls[u].entered < s.syncs ==> s.calls[u].ticket <= call.target)
  }

  ghost predicate CallsOk(c: Checksum, s: Sys) {
    && (forall t <- s.calls :: CallOk(c, s, s.calls[t]))
    && (forall t <- s.calls :: LeaderOk(c, s, s.calls[t]))
    && (forall t, u | t in s.calls && u in s.calls && s.calls[t].Syncing? && s.calls[u].Syncing? :: t == u)
    && (s.w.syncing ==> exists t :: t in s.calls && s.calls[t].Syncing?)
  }

  ghost predicate Inv(c: Checksum, s: Sys) {
    && WalInv(c, s.w, s.ps)
    && AckedOk(c, s.w, s.ps, s.acked)
    && CallsOk(c, s)
  }
}
